/** The sketch's vector library `V` (js/sketch.js:727-750): two-component
    vectors as values, with the transform `trans` that multiplies a row
    vector by a 2x2 matrix. */
module VectorMath {
  import opened Numeric

  datatype V2 = V2(x: real, y: real)

  const Origin: V2 := V2(0.0, 0.0)

  /** A 2x2 matrix, row by row: `[[m00, m01], [m10, m11]]`. */
  datatype Mat2 = Mat2(m00: real, m01: real, m10: real, m11: real)

  function Add(a: V2, b: V2): (r: V2)
    ensures r.x - b.x == a.x && r.y - b.y == a.y
  {
    V2(a.x + b.x, a.y + b.y)
  }

  function Sub(a: V2, b: V2): (r: V2)
    ensures Add(r, b) == a
  {
    V2(a.x - b.x, a.y - b.y)
  }

  function Scale(a: V2, s: real): (r: V2)
    ensures s == 1.0 ==> r == a
    ensures s == -1.0 ==> Add(a, r) == Origin
  {
    V2(a.x * s, a.y * s)
  }

  /** `V.equals`: no component differs. */
  function Equals(a: V2, b: V2): (r: bool)
    ensures r <==> a == b
  {
    !(a.x != b.x || a.y != b.y)
  }

  /** `V.lenSq`: the squared Euclidean length. */
  function LenSq(a: V2): (r: real)
    ensures 0.0 <= r
  {
    SquareNonNegative(a.x);
    SquareNonNegative(a.y);
    a.x * a.x + a.y * a.y
  }

  lemma SquareNonNegative(v: real)
    ensures 0.0 <= v * v
    ensures v != 0.0 ==> 0.0 < v * v
  {
    if v < 0.0 {
      assert v * v == (-v) * (-v);
    }
  }

  /** `V.norm`: divide by the length the square root returns. A vector whose
      length is zero would divide by zero; callers must rule it out. */
  function Norm(a: V2, m: MathLib): (r: V2)
    requires m.sqrt(LenSq(a)) != 0.0
    ensures Scale(r, m.sqrt(LenSq(a))) == a
  {
    var len := m.sqrt(LenSq(a));
    V2(a.x / len, a.y / len)
  }

  /** `V.rot2d(angle)`: `[[cos, -sin], [sin, cos]]`. */
  function Rot2d(angle: real, m: MathLib): (r: Mat2)
    ensures r.m00 == r.m11 && r.m01 == -r.m10
  {
    Mat2(m.cos(angle), -m.sin(angle), m.sin(angle), m.cos(angle))
  }

  /** `V.trans(matrix, a)`: component i is the sum over ci of
      `a[ci] * matrix[ci][i]`, so the vector multiplies the matrix from the
      left (a row vector times the matrix). */
  function Trans(mat: Mat2, a: V2): (r: V2)
    ensures mat == Mat2(1.0, 0.0, 0.0, 1.0) ==> r == a
  {
    V2(a.x * mat.m00 + a.y * mat.m10, a.x * mat.m01 + a.y * mat.m11)
  }

  /** Because `trans` multiplies from the left, `trans(rot2d(t), d)` turns d
      by -t: clockwise in the usual orientation. */
  lemma TransRotTurnsBackward(angle: real, a: V2, m: MathLib)
    ensures Trans(Rot2d(angle, m), a)
         == V2(a.x * m.cos(angle) + a.y * m.sin(angle),
               a.y * m.cos(angle) - a.x * m.sin(angle))
  {
  }

  /** A turn keeps the length of the heading whenever cos and sin of the
      angle satisfy the Pythagorean identity. */
  lemma {:induction false} TurnKeepsLength(angle: real, a: V2, m: MathLib)
    requires m.cos(angle) * m.cos(angle) + m.sin(angle) * m.sin(angle) == 1.0
    ensures LenSq(Trans(Rot2d(angle, m), a)) == LenSq(a)
  {
    var c, s := m.cos(angle), m.sin(angle);
    var r := Trans(Rot2d(angle, m), a);
    assert r.x == a.x * c + a.y * s;
    assert r.y == a.x * (-s) + a.y * c;
    calc {
      r.x * r.x + r.y * r.y;
      (a.x * c + a.y * s) * (a.x * c + a.y * s) + (a.x * (-s) + a.y * c) * (a.x * (-s) + a.y * c);
      a.x * a.x * (c * c + s * s) + a.y * a.y * (c * c + s * s);
      a.x * a.x + a.y * a.y;
    }
  }
}
