/** Numeric helpers shared by the model: the JavaScript integer conversions the
    sketch relies on, and the floating-point library calls it makes, which the
    model receives as an oracle instead of computing them. */
module Numeric {

  /** The library calls the sketch makes (`Math.cos`, `Math.sin`, `Math.sqrt`,
      p5's `atan2` and `PI`). Their values are inputs to the model. */
  datatype MathLib = MathLib(
    pi: real,
    sqrt: real -> real,
    cos: real -> real,
    sin: real -> real,
    atan2: (real, real) -> real)

  const Two31: int := 0x8000_0000
  const Two32: int := 0x1_0000_0000

  /** Truncation toward zero, the first half of JavaScript's `v | 0`:
      unlike `Floor`, it rounds negative values up. */
  function Trunc(x: real): (n: int)
    ensures 0.0 <= x ==> n as real <= x < n as real + 1.0
    ensures x < 0.0 ==> n as real - 1.0 < x <= n as real
  {
    if 0.0 <= x then x.Floor else -((-x).Floor)
  }

  /** ECMAScript ToInt32 on an integral value: reduce modulo 2^32 into the
      signed range. Every bitwise operator of JavaScript applies it. */
  function ToInt32(n: int): (r: int)
    ensures -Two31 <= r < Two31
    ensures (r - n) % Two32 == 0
  {
    (n + Two31) % Two32 - Two31
  }

  predicate IsInt32(n: int) {
    -Two31 <= n < Two31
  }

  /** ToInt32 leaves a value that already fits in 32 signed bits alone. */
  lemma ToInt32Identity(n: int)
    requires IsInt32(n)
    ensures ToInt32(n) == n
  {
  }

  /** ToInt32 depends only on the residue modulo 2^32. */
  lemma ToInt32Congruent(a: int, b: int)
    requires (a - b) % Two32 == 0
    ensures ToInt32(a) == ToInt32(b)
  {
    var k := (a - b) / Two32;
    assert a == b + k * Two32;
    assert (a + Two31) % Two32 == (b + Two31 + k * Two32) % Two32;
  }

  /** A product and a quotient under their own names, so that facts about
      them carry over to every place the same operands occur. */
  function Times(a: real, b: real): real
  {
    a * b
  }

  function Frac(a: real, d: real): real
    requires d != 0.0
  {
    a / d
  }

  /** p5's `map(n, start1, stop1, start2, stop2)`: the linear map sending
      start1 to start2 and stop1 to stop2 (no clamping). */
  function MapRange(n: real, start1: real, stop1: real, start2: real, stop2: real): (r: real)
    requires start1 != stop1
    ensures n == start1 ==> r == start2
    ensures n == stop1 ==> r == stop2
  {
    var f := Frac(n - start1, stop1 - start1);
    FracSelf(stop1 - start1);
    TimesEnds(stop2 - start2);
    assert n == start1 ==> f == 0.0;
    assert n == stop1 ==> f == 1.0;
    Times(f, stop2 - start2) + start2
  }

  lemma FracSelf(d: real)
    requires d != 0.0
    ensures Frac(d, d) == 1.0 && Frac(0.0, d) == 0.0
  {
  }

  lemma TimesEnds(w: real)
    ensures Times(0.0, w) == 0.0 && Times(1.0, w) == w
  {
  }

  /** A part of a positive whole is a fraction in [0, 1]. */
  lemma FracUnit(a: real, d: real)
    requires 0.0 <= a <= d && 0.0 < d
    ensures 0.0 <= Frac(a, d) <= 1.0
  {
    var q := a / d;
    assert q * d == a;
  }

  /** The two ways of measuring a part of a whole add up to the whole. */
  lemma FracComplement(a: real, d: real)
    requires d != 0.0
    ensures Frac(a, d) + Frac(d - a, d) == 1.0
    ensures Frac(a - d, -d) == Frac(d - a, d)
  {
  }

  /** Comparing a fraction with a constant c compares the part with c
      times the whole. */
  lemma FracBelow(a: real, d: real, c: real)
    requires 0.0 < d
    ensures Frac(a, d) < c <==> a < c * d
  {
    var q := a / d;
    assert q * d == a;
    assert c * d - a == (c - q) * d;
    if q < c {
      assert (c - q) * d > 0.0;
    } else {
      assert (q - c) * d >= 0.0;
    }
  }

  /** Scaling a value in [0, 1] by a non-negative w lands in [0, w], and
      strictly below w when the value is below 1 and w positive. */
  lemma TimesUnit(u: real, w: real)
    requires 0.0 <= u <= 1.0 && 0.0 <= w
    ensures 0.0 <= Times(u, w) <= w
    ensures u < 1.0 && 0.0 < w ==> Times(u, w) < w
  {
    assert w - u * w == (1.0 - u) * w;
    if u < 1.0 && 0.0 < w {
      assert (1.0 - u) * w > 0.0;
    }
  }

  lemma TimesDistributes(f: real, g: real, w: real)
    ensures Times(f, w) + Times(g, w) == Times(f + g, w)
  {
  }

  /** A quotient whose operands have the same sign is non-negative. */
  lemma FracNonNegative(a: real, d: real)
    requires (0.0 <= a && 0.0 < d) || (a <= 0.0 && d < 0.0)
    ensures 0.0 <= Frac(a, d)
  {
    if d < 0.0 {
      assert a / d == (-a) / (-d);
    }
  }

  lemma TimesMonotone(f: real, w: real, w2: real)
    requires 0.0 <= f && w <= w2
    ensures Times(f, w) <= Times(f, w2)
  {
    assert Times(f, w2) - Times(f, w) == f * (w2 - w);
  }

  /** For n on b's side of a, a wider target [0, r2] never gives a smaller
      image than [0, r1]. */
  lemma MapRangeWidthMonotone(n: real, a: real, b: real, r1: real, r2: real)
    requires (a <= n && a < b) || (n <= a && b < a)
    requires r1 <= r2
    ensures MapRange(n, a, b, 0.0, r1) <= MapRange(n, a, b, 0.0, r2)
  {
    FracNonNegative(n - a, b - a);
    TimesMonotone(Frac(n - a, b - a), r1 - 0.0, r2 - 0.0);
  }

  /** Mapping [a, b] onto [0, w] and mapping [b, a] onto [0, w] are
      complementary: the two results add up to w. */
  lemma MapRangeReversed(n: real, a: real, b: real, w: real)
    requires a != b
    ensures MapRange(n, a, b, 0.0, w) + MapRange(n, b, a, 0.0, w) == w
  {
    FracComplement(n - a, b - a);
    assert n - b == (n - a) - (b - a) && a - b == -(b - a);
    assert Frac(n - b, a - b) == Frac(b - a - (n - a), b - a);
    TimesDistributes(Frac(n - a, b - a), Frac(n - b, a - b), w - 0.0);
  }

  /** A point of [a, b] maps into [0, w] both forwards and backwards. */
  lemma MapRangeInto(n: real, a: real, b: real, w: real)
    requires a < b && a <= n <= b && 0.0 <= w
    ensures 0.0 <= MapRange(n, a, b, 0.0, w) <= w
    ensures 0.0 <= MapRange(n, b, a, 0.0, w) <= w
  {
    FracUnit(n - a, b - a);
    TimesUnit(Frac(n - a, b - a), w - 0.0);
    MapRangeReversed(n, a, b, w);
  }
}
