/** `String.prototype.hashCode` (js/sketch.js:753-761), which turns the seed
    text into the number handed to `randomSeed`. The loop works in the
    signed 32-bit arithmetic of JavaScript's bitwise operators; the model
    proves it computes Java's `String.hashCode` over UTF-16 code units. */
module Hashing {
  import opened Numeric

  /** A UTF-16 code unit, the value `charCodeAt` returns. */
  type CodeUnit = c: int | 0 <= c < 0x1_0000

  /** Java's recurrence: h(s + [c]) = (31 * h(s) + c) wrapped to signed 32
      bits, starting from 0. */
  function JavaHash(s: seq<CodeUnit>): (h: int)
    ensures IsInt32(h)
  {
    if s == [] then 0 else ToInt32(31 * JavaHash(s[..|s| - 1]) + s[|s| - 1])
  }

  /** `hashCode`: each round computes `((hash << 5) - hash) + char`, where
      the shift wraps `32 * hash` to 32 bits, and then `hash & hash`
      wraps the sum again. */
  method HashCode(s: seq<CodeUnit>) returns (hash: int)
    ensures hash == JavaHash(s)
    ensures IsInt32(hash)
  {
    hash := 0;
    var i := 0;
    while i < |s|
      invariant 0 <= i <= |s|
      invariant hash == JavaHash(s[..i])
    {
      var ch := s[i];
      RoundIsJavaStep(hash, ch);
      hash := ToInt32(ToInt32(hash * 32) - hash + ch);
      assert s[..i + 1][..i] == s[..i];
      i := i + 1;
    }
    assert s[..|s|] == s;
  }

  /** Shifting left by five and subtracting once multiplies by 31 modulo
      2^32, so one round of the loop is one step of Java's recurrence. */
  lemma RoundIsJavaStep(h: int, c: int)
    ensures ToInt32(ToInt32(h * 32) - h + c) == ToInt32(31 * h + c)
  {
    var shifted := ToInt32(h * 32);
    assert (shifted - h + c) - (31 * h + c) == shifted - h * 32;
    ToInt32Congruent(shifted - h + c, 31 * h + c);
  }

  function Pow31(n: nat): (r: nat)
    ensures 1 <= r
  {
    if n == 0 then 1 else 31 * Pow31(n - 1)
  }

  /** The closed form Java documents: s[0]*31^(n-1) + s[1]*31^(n-2) + ...
      + s[n-1], as an unbounded integer. */
  function PolySum(s: seq<CodeUnit>): int
  {
    if s == [] then 0 else s[0] * Pow31(|s| - 1) + PolySum(s[1..])
  }

  /** Appending a unit multiplies the polynomial by 31 and adds the unit. */
  lemma {:induction false} PolySumSnoc(s: seq<CodeUnit>, c: CodeUnit)
    ensures PolySum(s + [c]) == 31 * PolySum(s) + c
  {
    if s == [] {
      assert [] + [c] == [c];
    } else {
      var t := s + [c];
      assert t[0] == s[0] && t[1..] == s[1..] + [c];
      PolySumSnoc(s[1..], c);
      assert s[0] * Pow31(|s|) == 31 * (s[0] * Pow31(|s| - 1));
    }
  }

  lemma MultipleOfTwo32(a: int)
    requires a % Two32 == 0
    ensures (31 * a) % Two32 == 0
  {
    var k := a / Two32;
    assert a == k * Two32;
    assert 31 * a == (31 * k) * Two32;
  }

  /** The wrapped recurrence agrees with the closed form reduced to signed
      32 bits once, at the end: wrapping after every round loses nothing. */
  lemma {:induction false} JavaHashIsPolynomial(s: seq<CodeUnit>)
    ensures JavaHash(s) == ToInt32(PolySum(s))
  {
    if s != [] {
      var prefix, c := s[..|s| - 1], s[|s| - 1];
      assert s == prefix + [c];
      JavaHashIsPolynomial(prefix);
      PolySumSnoc(prefix, c);
      var h := JavaHash(prefix);
      MultipleOfTwo32(h - PolySum(prefix));
      assert (31 * h + c) - (31 * PolySum(prefix) + c) == 31 * (h - PolySum(prefix));
      ToInt32Congruent(31 * h + c, PolySum(s));
    }
  }

  /** The empty seed hashes to 0, and a single unit hashes to itself. */
  lemma ShortStrings(c: CodeUnit)
    ensures JavaHash([]) == 0
    ensures JavaHash([c]) == c
  {
    assert [c][..0] == [];
    ToInt32Identity(c);
  }
}
