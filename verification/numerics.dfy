/**
 * The scalar functions the geometry relies on: square root, cosine, sine and
 * the constant pi. The program calls the `f32` versions of these; here they
 * are left uninterpreted, supplied as the fields of a `MathLib` value, and
 * every fact a proof needs about them is stated as a hypothesis
 * (`SqrtLaws`, `TrigLaws`) that the lemmas require.
 */
module Numerics {

  /** The library of scalar functions: `f32::sqrt`, `f32::cos`, `f32::sin`
      and `std::f32::consts::PI`, over the reals. */
  datatype MathLib = MathLib(sqrt: real -> real, cos: real -> real, sin: real -> real, pi: real)

  /** `sqrt` returns the non-negative square root of a non-negative argument. */
  ghost predicate SqrtLaws(m: MathLib) {
    forall x :: 0.0 <= x ==> 0.0 <= m.sqrt(x) && m.sqrt(x) * m.sqrt(x) == x
  }

  /** The trigonometric facts the geometry needs: pi is positive, the values
      at 0, the Pythagorean identity and the quarter-turn shift laws
      cos(x + pi/2) == -sin(x) and sin(x + pi/2) == cos(x). */
  ghost predicate TrigLaws(m: MathLib) {
    && 0.0 < m.pi
    && m.cos(0.0) == 1.0
    && m.sin(0.0) == 0.0
    && (forall x :: m.cos(x) * m.cos(x) + m.sin(x) * m.sin(x) == 1.0)
    && (forall x, y {:trigger m.cos(y), m.sin(x)} :: y == x + m.pi / 2.0 ==> m.cos(y) == -m.sin(x))
    && (forall x, y {:trigger m.sin(y), m.cos(x)} :: y == x + m.pi / 2.0 ==> m.sin(y) == m.cos(x))
  }

  /** A quarter turn ahead, cosine becomes minus sine and sine becomes cosine. */
  lemma QuarterTurn(m: MathLib, x: real)
    requires TrigLaws(m)
    ensures m.cos(x + m.pi / 2.0) == -m.sin(x)
    ensures m.sin(x + m.pi / 2.0) == m.cos(x)
  {
  }

  /** Half a turn ahead, both cosine and sine change sign. */
  lemma HalfTurn(m: MathLib, x: real)
    requires TrigLaws(m)
    ensures m.cos(x + m.pi) == -m.cos(x)
    ensures m.sin(x + m.pi) == -m.sin(x)
  {
    var h := m.pi / 2.0;
    QuarterTurn(m, x);
    QuarterTurn(m, x + h);
    assert x + h + h == x + m.pi;
  }

  /** Cosine and sine repeat after a full turn of 2 * pi. */
  lemma FullTurn(m: MathLib, x: real)
    requires TrigLaws(m)
    ensures m.cos(x + 2.0 * m.pi) == m.cos(x)
    ensures m.sin(x + 2.0 * m.pi) == m.sin(x)
  {
    HalfTurn(m, x);
    HalfTurn(m, x + m.pi);
    assert x + m.pi + m.pi == x + 2.0 * m.pi;
  }

  // ---------------------------------------------------------------------
  // Real arithmetic, one nonlinear fact at a time

  /** The absolute value. */
  function Abs(x: real): (r: real)
    ensures 0.0 <= r && (r == x || r == -x)
  {
    if x < 0.0 then -x else x
  }

  /** A square is never negative. */
  lemma SquareNonNegative(x: real)
    ensures 0.0 <= x * x
  {
  }

  /** A sum of three squares is never negative. */
  lemma SumOfSquaresNonNegative(x: real, y: real, z: real)
    ensures 0.0 <= x * x + y * y + z * z
  {
    SquareNonNegative(x);
    SquareNonNegative(y);
    SquareNonNegative(z);
  }

  /** Squaring is strictly increasing on the non-negative reals. */
  lemma SquareGrows(a: real, b: real)
    requires 0.0 <= a < b
    ensures a * a < b * b
  {
    var aa, ab, bb := a * a, a * b, b * b;
    assert aa <= ab;
    assert ab < bb;
  }

  /** A bilinear expansion in which the two diagonal terms vanish and the
      off-diagonal ones are opposite collapses to a determinant. */
  lemma TwoTermsSurvive(p: real, q: real, r: real, t: real, w: real, x: real, y: real, z: real, d: real)
    requires w == 0.0 && z == 0.0 && x == d && y == -d
    ensures p * r * w + p * t * x + q * r * y + q * t * z == (p * t - q * r) * d
  {
  }

  /** The determinant `c * c - s * (-s)` of a rotation is 1. */
  lemma UnitDeterminant(c: real, s: real, d: real)
    requires c * c + s * s == 1.0
    ensures (c * c - s * -s) * d == d
  {
  }

  /** The inverse of a positive number, times that number, is 1. */
  lemma InverseTimesSelf(l: real)
    requires 0.0 < l
    ensures Abs(1.0 / l) * l == 1.0
  {
  }

  // ---------------------------------------------------------------------
  // Square root

  /** The square root of the square of a non-negative number is that number. */
  lemma SqrtOfSquare(m: MathLib, y: real)
    requires SqrtLaws(m)
    requires 0.0 <= y
    ensures m.sqrt(y * y) == y
  {
    var s := m.sqrt(y * y);
    assert 0.0 <= s && s * s == y * y;
    if s < y {
      SquareGrows(s, y);
    } else if y < s {
      SquareGrows(y, s);
    }
  }

  /** The square root of a positive number is positive. */
  lemma SqrtPositive(m: MathLib, x: real)
    requires SqrtLaws(m)
    requires 0.0 < x
    ensures 0.0 < m.sqrt(x)
  {
    var q := m.sqrt(x);
    assert 0.0 <= q && q * q == x;
  }

  /** `Abs(s) * sqrt(d)` is a non-negative square root of `s * s * d`. */
  lemma ScaledRoot(m: MathLib, d: real, s: real, r: real)
    requires SqrtLaws(m)
    requires 0.0 <= d && r == Abs(s) * m.sqrt(d)
    ensures 0.0 <= r && r * r == s * s * d
  {
    var q, a := m.sqrt(d), Abs(s);
    assert 0.0 <= q && q * q == d;
    assert a * a == s * s;
    assert r * r == (a * a) * (q * q);
  }

  /** Cosine of a step function: 1, 0, -1, 0 on the four unit intervals of
      each period of length 4. */
  function StepCos(x: real): real {
    var q := x.Floor % 4;
    if q == 0 then 1.0 else if q == 2 then -1.0 else 0.0
  }

  /** Sine of the same step function: 0, 1, 0, -1. */
  function StepSin(x: real): real {
    var q := x.Floor % 4;
    if q == 1 then 1.0 else if q == 3 then -1.0 else 0.0
  }

  /** The trigonometric hypotheses are consistent: a library whose pi is 2
      and whose cosine and sine are the step functions above meets them all. */
  lemma TrigLawsSatisfiable()
    ensures TrigLaws(MathLib(x => x, StepCos, StepSin, 2.0))
  {
    var m := MathLib(x => x, StepCos, StepSin, 2.0);
    forall x: real, y: real | y == x + m.pi / 2.0
      ensures m.cos(y) == -m.sin(x) && m.sin(y) == m.cos(x)
    {
      assert y.Floor == x.Floor + 1;
    }
  }
}
