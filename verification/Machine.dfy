/**
  * The machine integers of the C++ sources, as mathematical integers with the range of every
  * operation made explicit.
  *
  * A signed C++ expression must not overflow: it is written `I32(e)` or `I64(e)`, whose
  * precondition is that it does not. A conversion or an unsigned operation that wraps is written
  * with a `Wrap` function.
  */
module Machine {

  const TWO_15: int := 0x8000
  const TWO_16: int := 0x1_0000
  const TWO_31: int := 0x8000_0000
  const TWO_32: int := 0x1_0000_0000
  const TWO_63: int := 0x8000_0000_0000_0000
  const TWO_64: int := 0x1_0000_0000_0000_0000

  type Byte = x: int | 0 <= x < 256

  predicate FitsS16(x: int) { -TWO_15 <= x < TWO_15 }

  predicate FitsS32(x: int) { -TWO_31 <= x < TWO_31 }

  predicate FitsS64(x: int) { -TWO_63 <= x < TWO_63 }

  predicate FitsU32(x: int) { 0 <= x < TWO_32 }

  predicate FitsU64(x: int) { 0 <= x < TWO_64 }

  // A signed 32-bit result that must not overflow.
  function I32(x: int): int
    requires FitsS32(x)
  {
    x
  }

  // A signed 64-bit result that must not overflow.
  function I64(x: int): int
    requires FitsS64(x)
  {
    x
  }

  function WrapU32(x: int): (r: int)
    ensures FitsU32(r)
  {
    x % TWO_32
  }

  function WrapU64(x: int): (r: int)
    ensures FitsU64(r)
  {
    x % TWO_64
  }

  function WrapS16(x: int): (r: int)
    ensures FitsS16(r)
  {
    (x + TWO_15) % TWO_16 - TWO_15
  }

  function WrapS32(x: int): (r: int)
    ensures FitsS32(r)
  {
    (x + TWO_31) % TWO_32 - TWO_31
  }

  function WrapS64(x: int): (r: int)
    ensures FitsS64(r)
  {
    (x + TWO_63) % TWO_64 - TWO_63
  }

  // A conversion takes off a multiple of the modulus and leaves a number in the range: there is only one.
  lemma Wraps(x: int)
    ensures x - WrapU32(x) == x / 0x1_0000_0000 * 0x1_0000_0000
    ensures x - WrapU64(x) == x / 0x1_0000_0000_0000_0000 * 0x1_0000_0000_0000_0000
    ensures x - WrapS16(x) == (x + 0x8000) / 0x1_0000 * 0x1_0000
    ensures x - WrapS32(x) == (x + 0x8000_0000) / 0x1_0000_0000 * 0x1_0000_0000
    ensures x - WrapS64(x) == (x + 0x8000_0000_0000_0000) / 0x1_0000_0000_0000_0000 * 0x1_0000_0000_0000_0000
    ensures FitsS16(x) <==> -0x8000 <= x <= 0x7FFF
    ensures FitsS32(x) <==> -0x8000_0000 <= x <= 0x7FFF_FFFF
    ensures FitsS64(x) <==> -0x8000_0000_0000_0000 <= x <= 0x7FFF_FFFF_FFFF_FFFF
  {
  }

  function Abs(x: int): nat { if x < 0 then -x else x }

  function Pow2(n: nat): (r: nat)
    ensures r > 0
  {
    if n == 0 then 1 else 2 * Pow2(n - 1)
  }

  lemma MulOrder(d: int, m: int)
    requires m > 0
    ensures d >= 1 ==> d * m >= m
    ensures d <= -1 ==> d * m <= -m
  {
  }

  // Adding a multiple of the modulus does not change a remainder.
  lemma ModShift(x: int, k: int, m: int)
    requires m > 0
    ensures (x + k * m) % m == x % m
  {
    var q, r := x / m, x % m;
    assert x + k * m == (q + k) * m + r;
    var q', r' := (x + k * m) / m, (x + k * m) % m;
    assert (q' - q - k) * m == r - r';
    MulOrder(q' - q - k, m);
  }

  // Quotient and remainder are unique.
  lemma DivModUnique(x: int, q: int, m: int, r: int)
    requires m > 0 && 0 <= r < m && x == q * m + r
    ensures x / m == q && x % m == r
  {
    var q', r' := x / m, x % m;
    assert x == q' * m + r';
    assert (q' - q) * m == r - r';
    MulOrder(q' - q, m);
  }

  // A product of two signed words as uint64.
  function MulU64(w: int, h: int): (r: int)
    ensures FitsU64(r)
  {
    WrapU64(WrapU64(w) * WrapU64(h))
  }

  // The uint64 product-accumulate of the wide filters is the exact one, reduced once.
  lemma WrapMulAdd(acc: int, exact: int, w: int, h: int)
    requires acc == WrapU64(exact)
    ensures WrapU64(acc + MulU64(w, h)) == WrapU64(exact + w * h)
  {
    var a, b := w / TWO_64, h / TWO_64;
    var u, v := WrapU64(w), WrapU64(h);
    assert w == u + a * TWO_64 && h == v + b * TWO_64;
    var c := a * v + u * b + a * b * TWO_64;
    assert w * h == u * v + c * TWO_64 by {
      assert w * h == u * v + (a * TWO_64) * v + u * (b * TWO_64) + (a * TWO_64) * (b * TWO_64);
    }
    var d, e := (u * v) / TWO_64, exact / TWO_64;
    var k := c + d + e;
    assert exact + w * h == acc + WrapU64(u * v) + k * TWO_64;
    ModShift(acc + WrapU64(u * v), k, TWO_64);
  }

  lemma WrapMulSub(acc: int, exact: int, w: int, h: int)
    requires acc == WrapU64(exact)
    ensures WrapU64(acc - MulU64(w, h)) == WrapU64(exact - w * h)
  {
    WrapMulAdd(0, 0, w, h);
    WrapSubSame(exact, WrapU64(w) * WrapU64(h), w * h);
  }

  lemma WrapSubSame(exact: int, p: int, q: int)
    requires WrapU64(0 + WrapU64(p)) == WrapU64(0 + q)
    ensures WrapU64(WrapU64(exact) - WrapU64(p)) == WrapU64(exact - q)
  {
    WrapSub(exact, q);
  }

  lemma WrapSub(x: int, y: int)
    ensures WrapU64(WrapU64(x) - WrapU64(y)) == WrapU64(x - y)
  {
    ModShift(WrapU64(x) - WrapU64(y), x / TWO_64 - y / TWO_64, TWO_64);
  }

  lemma WrapU32Adds(a: int, b: int)
    ensures WrapU32(WrapU32(a) + b) == WrapU32(a + b)
  {
    ModShift(WrapU32(a) + b, a / TWO_32, TWO_32);
  }

  lemma WrapU64Twice(x: int)
    ensures WrapS64(WrapU64(x)) == WrapS64(x)
  {
    ModShift(x % TWO_64 + TWO_63, x / TWO_64, TWO_64);
  }
}
