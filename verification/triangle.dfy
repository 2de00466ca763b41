/**
 * The spinning isosceles triangle: its corners, the corners of its back face
 * and its front-face normal, all derived from the tip, the base midpoint, the
 * base half-length, two basis vectors and the current spin angle.
 */
module Geometry {
  import opened Numerics
  import opened Vector

  /** An isosceles triangle spinning about its axis of symmetry, the line
      from `tip` to `baseMidpt`. At spin 0 the corner reached clockwise from
      the tip lies `baseRadius` along `baseUnitI` from the base midpoint, and
      `baseUnitJ` is the front-face normal. */
  datatype Triangle = Triangle(
    tip: Vec3,
    baseMidpt: Vec3,
    baseRadius: real,
    baseUnitI: Vec3,
    baseUnitJ: Vec3,
    spin: real)

  /** The direction from the base midpoint towards the first base corner,
      after spinning by `t.spin`: the point of the ellipse spanned by `i` and
      `j` at angle `spin`, a unit vector when `i` and `j` are orthonormal. */
  function TowardsCorner(m: MathLib, t: Triangle): Vec3 {
    MixByAngle(m, t.baseUnitI, t.baseUnitJ, t.spin)
  }

  /** The three corners, tip first. The tip does not move with the spin, and
      the two base corners lie on opposite sides of the base midpoint, at the
      same offset. */
  function Corners(m: MathLib, t: Triangle): (c: seq<Vec3>)
    ensures |c| == 3
    ensures c[0] == t.tip
    ensures Subtract(c[1], t.baseMidpt) == Subtract(t.baseMidpt, c[2])
    ensures Add(c[1], c[2]) == Scale(t.baseMidpt, 2.0)
  {
    var baseMidptToCorner := Scale(TowardsCorner(m, t), t.baseRadius);
    var corner1 := Add(t.baseMidpt, baseMidptToCorner);
    var corner2 := Subtract(t.baseMidpt, baseMidptToCorner);
    OffsetBothWays(t.baseMidpt, baseMidptToCorner);
    [t.tip, corner1, corner2]
  }

  /** The corners in the opposite winding order: the tip stays first and the
      two base corners change places, so the back face has the same corners
      as the front. */
  function BackfaceCorners(m: MathLib, t: Triangle): (b: seq<Vec3>)
    ensures |b| == 3
    ensures b[0] == Corners(m, t)[0]
    ensures b[1] == Corners(m, t)[2] && b[2] == Corners(m, t)[1]
    ensures multiset(b) == multiset(Corners(m, t))
  {
    var c := Corners(m, t);
    assert c == [c[0], c[1], c[2]];
    [c[0], c[2], c[1]]
  }

  /** The front-face normal: the ellipse point a quarter turn ahead of the
      corner direction. */
  function Normal(m: MathLib, t: Triangle): Vec3 {
    MixByAngle(m, t.baseUnitI, t.baseUnitJ, t.spin + m.pi / 2.0)
  }

  /** `i` and `j` are at right angles and equally long. */
  ghost predicate PerpendicularPair(i: Vec3, j: Vec3) {
    Dot(i, j) == 0.0 && Dot(i, i) == Dot(j, j)
  }

  /** The spin axis, from the base midpoint to the tip, is at right angles to
      both basis vectors. */
  ghost predicate AxisPerpendicular(t: Triangle) {
    var axis := Subtract(t.tip, t.baseMidpt);
    Dot(axis, t.baseUnitI) == 0.0 && Dot(axis, t.baseUnitJ) == 0.0
  }

  // ---------------------------------------------------------------------
  // Shape of the triangle

  /** Each base corner lies `|baseRadius|` from the base midpoint, whatever
      the spin, when the basis vectors are orthonormal. */
  lemma CornerDistance(m: MathLib, t: Triangle)
    requires SqrtLaws(m) && TrigLaws(m)
    requires Orthonormal(t.baseUnitI, t.baseUnitJ)
    ensures Length(m, Subtract(Corners(m, t)[1], t.baseMidpt)) == Abs(t.baseRadius)
    ensures Length(m, Subtract(t.baseMidpt, Corners(m, t)[2])) == Abs(t.baseRadius)
  {
    var u := TowardsCorner(m, t);
    OffsetBothWays(t.baseMidpt, Scale(u, t.baseRadius));
    LengthOfScale(m, u, t.baseRadius);
    MixIsUnit(m, t.baseUnitI, t.baseUnitJ, t.spin);
  }

  /** The corner direction is at right angles to the spin axis when both
      basis vectors are. */
  lemma TowardsCornerPerpendicularToAxis(m: MathLib, t: Triangle)
    requires AxisPerpendicular(t)
    ensures Dot(TowardsCorner(m, t), Subtract(t.tip, t.baseMidpt)) == 0.0
  {
    var axis := Subtract(t.tip, t.baseMidpt);
    var c, s := m.cos(t.spin), m.sin(t.spin);
    DotAdd(Scale(t.baseUnitI, c), Scale(t.baseUnitJ, s), axis);
    DotScale(t.baseUnitI, axis, c);
    DotScale(t.baseUnitJ, axis, s);
    DotCommutes(axis, t.baseUnitI);
    DotCommutes(axis, t.baseUnitJ);
  }

  /** The triangle is isosceles: the tip is equally far from both base
      corners, whatever the spin, when the spin axis is at right angles to
      the basis vectors. */
  lemma Isosceles(m: MathLib, t: Triangle)
    requires AxisPerpendicular(t)
    ensures Length(m, Subtract(Corners(m, t)[1], t.tip))
         == Length(m, Subtract(Corners(m, t)[2], t.tip))
  {
    var u := TowardsCorner(m, t);
    var axis := Subtract(t.tip, t.baseMidpt);
    TowardsCornerPerpendicularToAxis(m, t);
    DotScale(u, axis, t.baseRadius);
    MirrorPointsEquidistant(t.baseMidpt, Scale(u, t.baseRadius), t.tip);
  }

  // ---------------------------------------------------------------------
  // The normal

  /** The normal is -sin(spin) * i + cos(spin) * j. */
  lemma NormalFormula(m: MathLib, t: Triangle)
    requires TrigLaws(m)
    ensures Normal(m, t)
         == Add(Scale(t.baseUnitI, -m.sin(t.spin)), Scale(t.baseUnitJ, m.cos(t.spin)))
  {
    MixQuarterTurnAhead(m, t.baseUnitI, t.baseUnitJ, t.spin);
  }

  /** The normal is a unit vector when the basis vectors are orthonormal. */
  lemma NormalIsUnit(m: MathLib, t: Triangle)
    requires SqrtLaws(m) && TrigLaws(m)
    requires Orthonormal(t.baseUnitI, t.baseUnitJ)
    ensures Length(m, Normal(m, t)) == 1.0
  {
    MixIsUnit(m, t.baseUnitI, t.baseUnitJ, t.spin + m.pi / 2.0);
  }

  /** The normal is at right angles to the corner direction when `i` and `j`
      are at right angles and equally long. */
  lemma NormalPerpendicularToCornerDirection(m: MathLib, t: Triangle)
    requires TrigLaws(m)
    requires PerpendicularPair(t.baseUnitI, t.baseUnitJ)
    ensures Dot(Normal(m, t), TowardsCorner(m, t)) == 0.0
  {
    var i, j := t.baseUnitI, t.baseUnitJ;
    var c, s := m.cos(t.spin), m.sin(t.spin);
    NormalFormula(m, t);
    DotOfMixes(i, j, -s, c, c, s);
    var k := Dot(i, i);
    assert -s * c * k + c * s * k == 0.0;
  }

  /** The normal is at right angles to the spin axis when the axis is at
      right angles to both basis vectors. */
  lemma NormalPerpendicularToAxis(m: MathLib, t: Triangle)
    requires AxisPerpendicular(t)
    ensures Dot(Normal(m, t), Subtract(t.tip, t.baseMidpt)) == 0.0
  {
    TowardsCornerPerpendicularToAxis(m, t.(spin := t.spin + m.pi / 2.0));
  }

  /** The normal is at right angles to the base, from the second corner to
      the first, whatever the spin, when `i` and `j` are at right angles and
      equally long; nothing is needed of the spin axis. */
  lemma NormalPerpendicularToBase(m: MathLib, t: Triangle)
    requires TrigLaws(m)
    requires PerpendicularPair(t.baseUnitI, t.baseUnitJ)
    ensures Dot(Normal(m, t), Subtract(Corners(m, t)[1], Corners(m, t)[2])) == 0.0
  {
    var n := Normal(m, t);
    var d := Scale(TowardsCorner(m, t), t.baseRadius);
    NormalPerpendicularToCornerDirection(m, t);
    DotScale(n, TowardsCorner(m, t), t.baseRadius);
    OffsetBothWays(t.baseMidpt, d);
    DotScale(n, d, 2.0);
  }

  /** The normal is at right angles to all three edges of the triangle. */
  lemma NormalPerpendicularToFace(m: MathLib, t: Triangle)
    requires TrigLaws(m)
    requires PerpendicularPair(t.baseUnitI, t.baseUnitJ)
    requires AxisPerpendicular(t)
    ensures Dot(Normal(m, t), Subtract(Corners(m, t)[1], Corners(m, t)[2])) == 0.0
    ensures Dot(Normal(m, t), Subtract(Corners(m, t)[1], Corners(m, t)[0])) == 0.0
    ensures Dot(Normal(m, t), Subtract(Corners(m, t)[2], Corners(m, t)[0])) == 0.0
  {
    var n := Normal(m, t);
    var d := Scale(TowardsCorner(m, t), t.baseRadius);
    var axis := Subtract(t.tip, t.baseMidpt);
    NormalPerpendicularToCornerDirection(m, t);
    NormalPerpendicularToAxis(m, t);
    DotScale(n, TowardsCorner(m, t), t.baseRadius);
    OffsetBothWays(t.baseMidpt, d);
    DotScale(n, d, 2.0);
    assert Subtract(Corners(m, t)[1], Corners(m, t)[0]) == Add(d, Negate(axis));
    assert Subtract(Corners(m, t)[2], Corners(m, t)[0]) == Add(Negate(d), Negate(axis));
    DotAdd(d, Negate(axis), n);
    DotAdd(Negate(d), Negate(axis), n);
    DotScale(d, n, -1.0);
    DotScale(axis, n, -1.0);
    DotCommutes(n, d);
    DotCommutes(n, axis);
    DotCommutes(n, Add(d, Negate(axis)));
    DotCommutes(n, Add(Negate(d), Negate(axis)));
  }

  // ---------------------------------------------------------------------
  // Orientation

  /** How three points wind, seen from the side `n` points to: the cross
      product of the edges from the first point, measured along `n`. It is
      negative when the points run clockwise and positive when they run
      anticlockwise. */
  function Winding(p: seq<Vec3>, n: Vec3): real
    requires |p| == 3
  {
    Dot(Cross(Subtract(p[1], p[0]), Subtract(p[2], p[0])), n)
  }

  /** The cross product of the two edges from the tip is twice
      `baseRadius` times the cross product of the spin axis with the corner
      direction. */
  lemma FaceCross(m: MathLib, t: Triangle)
    ensures Cross(Subtract(Corners(m, t)[1], t.tip), Subtract(Corners(m, t)[2], t.tip))
         == Scale(Scale(Cross(Subtract(t.tip, t.baseMidpt), TowardsCorner(m, t)), t.baseRadius), 2.0)
  {
    var u := TowardsCorner(m, t);
    CrossOfMirrorEdges(t.tip, t.baseMidpt, Scale(u, t.baseRadius));
    CrossScale(Subtract(t.tip, t.baseMidpt), u, t.baseRadius);
  }

  /** The triple product of the spin axis, the corner direction and the
      normal does not depend on the spin. */
  lemma AxisCornerNormal(m: MathLib, t: Triangle)
    requires TrigLaws(m)
    ensures Dot(Cross(Subtract(t.tip, t.baseMidpt), TowardsCorner(m, t)), Normal(m, t))
         == Dot(Subtract(t.tip, t.baseMidpt), Cross(t.baseUnitI, t.baseUnitJ))
  {
    NormalFormula(m, t);
    TripleWithQuarterTurn(Subtract(t.tip, t.baseMidpt), t.baseUnitI, t.baseUnitJ, m.cos(t.spin), m.sin(t.spin));
  }

  /** Measured against the normal, the corners wind by twice `baseRadius`
      times the triple product of the spin axis with `i` and `j`, whatever
      the spin. */
  lemma FrontWinding(m: MathLib, t: Triangle)
    requires TrigLaws(m)
    ensures Winding(Corners(m, t), Normal(m, t))
         == 2.0 * t.baseRadius * Dot(Subtract(t.tip, t.baseMidpt), Cross(t.baseUnitI, t.baseUnitJ))
  {
    var axis := Subtract(t.tip, t.baseMidpt);
    FaceCross(m, t);
    AxisCornerNormal(m, t);
    DotScaledTwice(Cross(axis, TowardsCorner(m, t)), Normal(m, t), t.baseRadius, 2.0,
                   Dot(axis, Cross(t.baseUnitI, t.baseUnitJ)));
  }

  /** The back face, measured against the reversed normal, winds exactly as
      the front face does against the normal. */
  lemma BackfaceWinding(m: MathLib, t: Triangle)
    ensures Winding(BackfaceCorners(m, t), Negate(Normal(m, t)))
         == Winding(Corners(m, t), Normal(m, t))
  {
    var c := Corners(m, t);
    var e1, e2 := Subtract(c[1], c[0]), Subtract(c[2], c[0]);
    CrossAntiCommutes(e1, e2);
    DotNegateBoth(Cross(e1, e2), Normal(m, t));
  }

  // ---------------------------------------------------------------------
  // The spin

  /** Unspun, the first base corner lies along `i` from the base midpoint,
      the second along `-i`, and the normal is `j`. */
  lemma AtRest(m: MathLib, t: Triangle)
    requires TrigLaws(m)
    requires t.spin == 0.0
    ensures Corners(m, t)
         == [t.tip, Add(t.baseMidpt, Scale(t.baseUnitI, t.baseRadius)),
             Subtract(t.baseMidpt, Scale(t.baseUnitI, t.baseRadius))]
    ensures Normal(m, t) == t.baseUnitJ
  {
    MixAtZero(m, t.baseUnitI, t.baseUnitJ);
    MixAtQuarterTurn(m, t.baseUnitI, t.baseUnitJ);
    assert t.spin + m.pi / 2.0 == m.pi / 2.0;
  }

  /** A quarter turn on, the first base corner lies along `j` from the base
      midpoint, the second along `-j`, and the normal is `-i`. */
  lemma AtQuarterTurn(m: MathLib, t: Triangle)
    requires TrigLaws(m)
    requires t.spin == m.pi / 2.0
    ensures Corners(m, t)
         == [t.tip, Add(t.baseMidpt, Scale(t.baseUnitJ, t.baseRadius)),
             Subtract(t.baseMidpt, Scale(t.baseUnitJ, t.baseRadius))]
    ensures Normal(m, t) == Negate(t.baseUnitI)
  {
    MixAtQuarterTurn(m, t.baseUnitI, t.baseUnitJ);
    MixHalfTurnAhead(m, t.baseUnitI, t.baseUnitJ, 0.0);
    MixAtZero(m, t.baseUnitI, t.baseUnitJ);
    assert t.spin + m.pi / 2.0 == 0.0 + m.pi;
  }

  /** Half a turn on, the front face sits where the back face was: the
      corners are the back-face corners and the normal is reversed. */
  lemma BackfaceIsHalfTurn(m: MathLib, t: Triangle)
    requires TrigLaws(m)
    ensures Corners(m, t.(spin := t.spin + m.pi)) == BackfaceCorners(m, t)
    ensures Normal(m, t.(spin := t.spin + m.pi)) == Negate(Normal(m, t))
  {
    var i, j := t.baseUnitI, t.baseUnitJ;
    var u := TowardsCorner(m, t);
    var h := t.(spin := t.spin + m.pi);
    MixHalfTurnAhead(m, i, j, t.spin);
    assert TowardsCorner(m, h) == Negate(u);
    NegateScale(u, t.baseRadius);
    MixHalfTurnAhead(m, i, j, t.spin + m.pi / 2.0);
    assert h.spin + m.pi / 2.0 == t.spin + m.pi / 2.0 + m.pi;
  }

  /** A full turn brings the corners and the normal back. */
  lemma FullTurnRepeats(m: MathLib, t: Triangle)
    requires TrigLaws(m)
    ensures Corners(m, t.(spin := t.spin + 2.0 * m.pi)) == Corners(m, t)
    ensures Normal(m, t.(spin := t.spin + 2.0 * m.pi)) == Normal(m, t)
  {
    MixFullTurn(m, t.baseUnitI, t.baseUnitJ, t.spin);
    MixFullTurn(m, t.baseUnitI, t.baseUnitJ, t.spin + m.pi / 2.0);
    assert t.spin + 2.0 * m.pi + m.pi / 2.0 == t.spin + m.pi / 2.0 + 2.0 * m.pi;
  }
}
