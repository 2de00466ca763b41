/**
 * Component-wise helpers on 3-vectors (`[f32; 3]` in the program), over the
 * reals: scale, negate, add, subtract, length, normalize, and the ellipse
 * parametrisation `MixByAngle` that is the model's only rotation primitive.
 */
module Vector {
  import opened Numerics

  /** A point or direction in 3-space; `At(k)` is the component the program
      reads as `a[k]`. */
  datatype Vec3 = Vec3(x: real, y: real, z: real) {
    function At(k: nat): real
      requires k < 3
    {
      if k == 0 then x else if k == 1 then y else z
    }
  }

  const Origin := Vec3(0.0, 0.0, 0.0)

  /** Every component multiplied by `s`. */
  function Scale(a: Vec3, s: real): (r: Vec3)
    ensures forall k :: 0 <= k < 3 ==> r.At(k) == a.At(k) * s
  {
    Vec3(a.x * s, a.y * s, a.z * s)
  }

  /** `a` scaled by -1: every component changes sign, and adding it to `a`
      gives the origin. */
  function Negate(a: Vec3): (r: Vec3)
    ensures forall k :: 0 <= k < 3 ==> r.At(k) == -a.At(k)
    ensures Add(a, r) == Origin
  {
    Scale(a, -1.0)
  }

  /** Component-wise sum. */
  function Add(a: Vec3, b: Vec3): (r: Vec3)
    ensures forall k :: 0 <= k < 3 ==> r.At(k) == a.At(k) + b.At(k)
  {
    Vec3(a.x + b.x, a.y + b.y, a.z + b.z)
  }

  /** `a` plus the negation of `b`, which is the component-wise difference;
      adding `b` back gives `a`. */
  function Subtract(a: Vec3, b: Vec3): (r: Vec3)
    ensures forall k :: 0 <= k < 3 ==> r.At(k) == a.At(k) - b.At(k)
    ensures Add(r, b) == a
  {
    Add(a, Negate(b))
  }

  /** The dot product; `Length` is the square root of a vector's dot product
      with itself. */
  function Dot(a: Vec3, b: Vec3): real {
    a.x * b.x + a.y * b.y + a.z * b.z
  }

  /** The Euclidean length, through the library's square root: when `sqrt`
      keeps its laws, a non-negative number whose square is the sum of the
      squared components. */
  function Length(m: MathLib, a: Vec3): (r: real)
    ensures SqrtLaws(m) ==> 0.0 <= r && r * r == Dot(a, a)
  {
    m.sqrt(Dot(a, a))
  }

  /** `a` scaled by the inverse of its length. The program asserts that the
      inverse length is finite, which over the reals means the length is not
      zero. Scaling the result back by that length gives `a` again. */
  function Normalize(m: MathLib, a: Vec3): (r: Vec3)
    requires Length(m, a) != 0.0
    ensures Scale(r, Length(m, a)) == a
  {
    var l := Length(m, a);
    assert (1.0 / l) * l == 1.0;
    ScaleTwice(a, 1.0 / l, l);
    Scale(a, 1.0 / l)
  }

  /** The point `angle` radians around the origin-centred ellipse whose
      zero-radian point is `i` and whose pi/2 point is `j`. */
  function MixByAngle(m: MathLib, i: Vec3, j: Vec3, angle: real): (r: Vec3)
    ensures forall k :: 0 <= k < 3 ==> r.At(k) == i.At(k) * m.cos(angle) + j.At(k) * m.sin(angle)
  {
    Add(Scale(i, m.cos(angle)), Scale(j, m.sin(angle)))
  }

  /** `i` and `j` are unit vectors at right angles. */
  ghost predicate Orthonormal(i: Vec3, j: Vec3) {
    Dot(i, i) == 1.0 && Dot(j, j) == 1.0 && Dot(i, j) == 0.0
  }

  // ---------------------------------------------------------------------
  // Algebra of the helpers

  /** Negation undoes itself. */
  lemma NegateInvolutive(a: Vec3)
    ensures Negate(Negate(a)) == a
  {
  }

  /** Subtracting what was added gives back the original vector. */
  lemma SubtractUndoesAdd(a: Vec3, b: Vec3)
    ensures Subtract(Add(a, b), b) == a
  {
  }

  /** Stepping from `mid` by `d` and by `-d` gives two points symmetric
      about `mid`: each lies `d` away from it on opposite sides, and their
      sum is twice `mid`. */
  lemma OffsetBothWays(mid: Vec3, d: Vec3)
    ensures Subtract(Add(mid, d), mid) == d
    ensures Subtract(mid, Subtract(mid, d)) == d
    ensures Add(Add(mid, d), Subtract(mid, d)) == Scale(mid, 2.0)
    ensures Subtract(Add(mid, d), Subtract(mid, d)) == Scale(d, 2.0)
  {
  }

  /** Scaling a negated vector is the same as negating the scaled one, so
      stepping by it is stepping back. */
  lemma NegateScale(a: Vec3, s: real)
    ensures Scale(Negate(a), s) == Negate(Scale(a, s))
    ensures forall p: Vec3 :: Add(p, Scale(Negate(a), s)) == Subtract(p, Scale(a, s))
  {
    ScaleTwice(a, -1.0, s);
    ScaleTwice(a, s, -1.0);
  }

  /** Scaling twice is scaling once by the product. */
  lemma ScaleTwice(a: Vec3, s: real, t: real)
    ensures Scale(Scale(a, s), t) == Scale(a, s * t)
  {
    assert a.x * s * t == a.x * (s * t);
    assert a.y * s * t == a.y * (s * t);
    assert a.z * s * t == a.z * (s * t);
  }

  /** The dot product is symmetric. */
  lemma DotCommutes(a: Vec3, b: Vec3)
    ensures Dot(a, b) == Dot(b, a)
  {
  }

  /** The dot product distributes over a sum on either side. */
  lemma DotAdd(a: Vec3, b: Vec3, v: Vec3)
    ensures Dot(Add(a, b), v) == Dot(a, v) + Dot(b, v)
    ensures Dot(v, Add(a, b)) == Dot(v, a) + Dot(v, b)
  {
  }

  /** A scale factor on either side comes out of the dot product. */
  lemma DotScale(a: Vec3, b: Vec3, s: real)
    ensures Dot(Scale(a, s), b) == s * Dot(a, b)
    ensures Dot(a, Scale(b, s)) == s * Dot(a, b)
  {
  }

  /** Negating both sides leaves the dot product unchanged. */
  lemma DotNegateBoth(a: Vec3, b: Vec3)
    ensures Dot(Negate(a), Negate(b)) == Dot(a, b)
  {
  }

  /** Scale factors on both sides come out of the dot product together. */
  lemma DotScaleBoth(a: Vec3, b: Vec3, s: real, t: real)
    ensures Dot(Scale(a, s), Scale(b, t)) == s * t * Dot(a, b)
  {
    DotScale(a, Scale(b, t), s);
    DotScale(a, b, t);
  }

  /** The squared length of a sum. */
  lemma DotOfSumSelf(a: Vec3, b: Vec3)
    ensures Dot(Add(a, b), Add(a, b)) == Dot(a, a) + 2.0 * Dot(a, b) + Dot(b, b)
  {
    DotAdd(a, b, Add(a, b));
    DotAdd(a, b, a);
    DotAdd(a, b, b);
    DotCommutes(b, a);
  }

  /** Two points reached from `mid` by `d` and by `-d` are equally far from
      any point `p` whose offset from `mid` is at right angles to `d`. */
  lemma MirrorPointsEquidistant(mid: Vec3, d: Vec3, p: Vec3)
    requires Dot(d, Subtract(p, mid)) == 0.0
    ensures Dot(Subtract(Add(mid, d), p), Subtract(Add(mid, d), p))
         == Dot(Subtract(Subtract(mid, d), p), Subtract(Subtract(mid, d), p))
  {
    var a := Subtract(p, mid);
    var na, nd := Negate(a), Negate(d);
    assert Subtract(Add(mid, d), p) == Add(d, na);
    assert Subtract(Subtract(mid, d), p) == Add(nd, na);
    DotOfSumSelf(d, na);
    DotOfSumSelf(nd, na);
    DotScale(d, a, -1.0);
    DotScaleBoth(a, a, -1.0, -1.0);
    DotScaleBoth(d, d, -1.0, -1.0);
    DotScaleBoth(d, a, -1.0, -1.0);
  }

  /** The dot product of two points of the ellipse spanned by `i` and `j`,
      in terms of the coefficients and the dot products of `i` and `j`. */
  lemma DotOfMixes(i: Vec3, j: Vec3, a: real, b: real, c: real, d: real)
    ensures Dot(Add(Scale(i, a), Scale(j, b)), Add(Scale(i, c), Scale(j, d)))
         == a * c * Dot(i, i) + (a * d + b * c) * Dot(i, j) + b * d * Dot(j, j)
  {
    var ia, jb, ic, jd := Scale(i, a), Scale(j, b), Scale(i, c), Scale(j, d);
    DotAdd(ia, jb, Add(ic, jd));
    DotAdd(ic, jd, ia);
    DotAdd(ic, jd, jb);
    DotScaleBoth(i, i, a, c);
    DotScaleBoth(i, j, a, d);
    DotScaleBoth(j, i, b, c);
    DotScaleBoth(j, j, b, d);
    DotCommutes(j, i);
  }

  // ---------------------------------------------------------------------
  // Cross product: which way round a face is, measured against a normal

  /** The cross product. */
  function Cross(a: Vec3, b: Vec3): Vec3 {
    Vec3(a.y * b.z - a.z * b.y, a.z * b.x - a.x * b.z, a.x * b.y - a.y * b.x)
  }

  /** The cross product is at right angles to both its arguments. */
  lemma CrossPerpendicular(a: Vec3, b: Vec3)
    ensures Dot(Cross(a, b), a) == 0.0 && Dot(Cross(a, b), b) == 0.0
  {
  }

  /** Swapping the arguments of the cross product negates it. */
  lemma CrossAntiCommutes(a: Vec3, b: Vec3)
    ensures Cross(b, a) == Negate(Cross(a, b))
  {
  }

  /** A scale factor on the right comes out of the cross product. */
  lemma CrossScale(a: Vec3, b: Vec3, s: real)
    ensures Cross(a, Scale(b, s)) == Scale(Cross(a, b), s)
  {
    assert a.y * (b.z * s) - a.z * (b.y * s) == (a.y * b.z - a.z * b.y) * s;
    assert a.z * (b.x * s) - a.x * (b.z * s) == (a.z * b.x - a.x * b.z) * s;
    assert a.x * (b.y * s) - a.y * (b.x * s) == (a.x * b.y - a.y * b.x) * s;
  }

  /** The cross product distributes over a sum on either side. */
  lemma CrossAdd(a: Vec3, b: Vec3, v: Vec3)
    ensures Cross(Add(a, b), v) == Add(Cross(a, v), Cross(b, v))
    ensures Cross(v, Add(a, b)) == Add(Cross(v, a), Cross(v, b))
  {
  }

  /** The scalar triple product may be rotated: `(a x b) . c == a . (b x c)`. */
  lemma TripleProduct(a: Vec3, b: Vec3, c: Vec3)
    ensures Dot(Cross(a, b), c) == Dot(a, Cross(b, c))
  {
  }

  /** The dot product of two combinations of vectors, expanded. */
  lemma DotOfCombinations(e: Vec3, f: Vec3, g: Vec3, h: Vec3, a: real, b: real, c: real, d: real)
    ensures Dot(Add(Scale(e, a), Scale(f, b)), Add(Scale(g, c), Scale(h, d)))
         == a * c * Dot(e, g) + a * d * Dot(e, h) + b * c * Dot(f, g) + b * d * Dot(f, h)
  {
    var ea, fb, gc, hd := Scale(e, a), Scale(f, b), Scale(g, c), Scale(h, d);
    DotAdd(ea, fb, Add(gc, hd));
    DotAdd(gc, hd, ea);
    DotAdd(gc, hd, fb);
    DotScaleBoth(e, g, a, c);
    DotScaleBoth(e, h, a, d);
    DotScaleBoth(f, g, b, c);
    DotScaleBoth(f, h, b, d);
  }

  /** A combination of `e` and `f`, dotted with a combination of `i` and
      `j`, when `e` is at right angles to `i`, `f` to `j`, and the two cross
      terms are opposite: only the determinant of the coefficients is left. */
  lemma DotOfSkewCombinations(v: Vec3, e: Vec3, f: Vec3, i: Vec3, j: Vec3,
                               p: real, q: real, r: real, t: real, d: real)
    requires v == Add(Scale(e, p), Scale(f, q))
    requires Dot(e, i) == 0.0 && Dot(f, j) == 0.0
    requires Dot(e, j) == d && Dot(f, i) == -d
    ensures Dot(v, Add(Scale(i, r), Scale(j, t))) == (p * t - q * r) * d
  {
    DotOfCombinations(e, f, i, j, p, q, r, t);
    TwoTermsSurvive(p, q, r, t, Dot(e, i), Dot(e, j), Dot(f, i), Dot(f, j), d);
  }

  /** The cross product of `a` with a combination of `i` and `j` is the same
      combination of `a x i` and `a x j`. */
  lemma CrossWithCombination(a: Vec3, i: Vec3, j: Vec3, p: real, q: real)
    ensures Cross(a, Add(Scale(i, p), Scale(j, q)))
         == Add(Scale(Cross(a, i), p), Scale(Cross(a, j), q))
  {
    CrossAdd(Scale(i, p), Scale(j, q), a);
    CrossScale(a, i, p);
    CrossScale(a, j, q);
  }

  /** Exchanging the last two vectors of a triple product negates it. */
  lemma TripleProductSwap(a: Vec3, b: Vec3, c: Vec3)
    ensures Dot(Cross(a, c), b) == -Dot(a, Cross(b, c))
  {
  }

  /** For two points `u` and `n` of the ellipse spanned by `i` and `j`, the
      triple product of any `a` with them is the triple product of `a` with
      `i` and `j`, times the determinant of their coefficients. */
  lemma TripleOfMixes(a: Vec3, i: Vec3, j: Vec3, p: real, q: real, r: real, t: real)
    ensures Dot(Cross(a, Add(Scale(i, p), Scale(j, q))), Add(Scale(i, r), Scale(j, t)))
         == (p * t - q * r) * Dot(a, Cross(i, j))
  {
    CrossWithCombination(a, i, j, p, q);
    CrossPerpendicular(a, i);
    CrossPerpendicular(a, j);
    TripleProduct(a, i, j);
    TripleProductSwap(a, i, j);
    DotOfSkewCombinations(Cross(a, Add(Scale(i, p), Scale(j, q))), Cross(a, i), Cross(a, j),
                          i, j, p, q, r, t, Dot(a, Cross(i, j)));
  }

  /** A point `u` of the ellipse at some angle and the point `n` a quarter
      turn ahead (coefficients `(c, s)` and `(-s, c)` with `c^2 + s^2 = 1`)
      have the same triple product with any `a` as `i` and `j` do. */
  lemma TripleWithQuarterTurn(a: Vec3, i: Vec3, j: Vec3, c: real, s: real)
    requires c * c + s * s == 1.0
    ensures Dot(Cross(a, Add(Scale(i, c), Scale(j, s))), Add(Scale(i, -s), Scale(j, c)))
         == Dot(a, Cross(i, j))
  {
    TripleOfMixes(a, i, j, c, s, -s, c);
    UnitDeterminant(c, s, Dot(a, Cross(i, j)));
  }

  /** Scaling twice on the left of a dot product multiplies it by both
      factors. */
  lemma DotScaledTwice(a: Vec3, b: Vec3, r: real, s: real, d: real)
    requires Dot(a, b) == d
    ensures Dot(Scale(Scale(a, r), s), b) == s * r * d
  {
    ScaleTwice(a, r, s);
    DotScale(a, b, r * s);
  }

  /** The edges from a point `p` to the two points `mid + d` and `mid - d`
      span twice the cross product of `p - mid` with `d`. */
  lemma CrossOfMirrorEdges(p: Vec3, mid: Vec3, d: Vec3)
    ensures Cross(Subtract(Add(mid, d), p), Subtract(Subtract(mid, d), p))
         == Scale(Cross(Subtract(p, mid), d), 2.0)
  {
  }

  // ---------------------------------------------------------------------
  // Length and normalize

  /** The dot product of a vector with itself is never negative. */
  lemma DotSelfNonNegative(a: Vec3)
    ensures 0.0 <= Dot(a, a)
  {
    SumOfSquaresNonNegative(a.x, a.y, a.z);
  }

  /** A vector whose squared length is `r * r`, for a non-negative `r`, has
      length `r`. */
  lemma LengthFromDot(m: MathLib, a: Vec3, r: real)
    requires SqrtLaws(m)
    requires 0.0 <= r && Dot(a, a) == r * r
    ensures Length(m, a) == r
  {
    SqrtOfSquare(m, r);
  }

  /** Scaling by `s` multiplies the length by the absolute value of `s`. */
  lemma LengthOfScale(m: MathLib, a: Vec3, s: real)
    requires SqrtLaws(m)
    ensures Length(m, Scale(a, s)) == Abs(s) * Length(m, a)
  {
    DotSelfNonNegative(a);
    DotScaleBoth(a, a, s, s);
    var r := Abs(s) * Length(m, a);
    ScaledRoot(m, Dot(a, a), s, r);
    LengthFromDot(m, Scale(a, s), r);
  }

  /** The origin has length zero, so `Normalize` cannot be applied to it. */
  lemma OriginHasLengthZero(m: MathLib)
    requires SqrtLaws(m)
    ensures Length(m, Origin) == 0.0
  {
    SqrtOfSquare(m, 0.0);
    assert Dot(Origin, Origin) == 0.0 * 0.0;
  }

  /** A normalized vector has length 1. */
  lemma NormalizeIsUnit(m: MathLib, a: Vec3)
    requires SqrtLaws(m)
    requires Length(m, a) != 0.0
    ensures Length(m, Normalize(m, a)) == 1.0
  {
    var l := Length(m, a);
    DotSelfNonNegative(a);
    LengthOfScale(m, a, 1.0 / l);
    InverseTimesSelf(l);
  }

  // ---------------------------------------------------------------------
  // The ellipse parametrisation

  /** At angle 0 the ellipse is at `i`. */
  lemma MixAtZero(m: MathLib, i: Vec3, j: Vec3)
    requires TrigLaws(m)
    ensures MixByAngle(m, i, j, 0.0) == i
  {
  }

  /** At angle pi/2 the ellipse is at `j`. */
  lemma MixAtQuarterTurn(m: MathLib, i: Vec3, j: Vec3)
    requires TrigLaws(m)
    ensures MixByAngle(m, i, j, m.pi / 2.0) == j
  {
    QuarterTurn(m, 0.0);
    assert 0.0 + m.pi / 2.0 == m.pi / 2.0;
  }

  /** A quarter turn ahead of `angle`, the ellipse point is
      -sin(angle) * i + cos(angle) * j. */
  lemma MixQuarterTurnAhead(m: MathLib, i: Vec3, j: Vec3, angle: real)
    requires TrigLaws(m)
    ensures MixByAngle(m, i, j, angle + m.pi / 2.0)
         == Add(Scale(i, -m.sin(angle)), Scale(j, m.cos(angle)))
  {
    QuarterTurn(m, angle);
  }

  /** Half a turn ahead, the ellipse point is the negated point. */
  lemma MixHalfTurnAhead(m: MathLib, i: Vec3, j: Vec3, angle: real)
    requires TrigLaws(m)
    ensures MixByAngle(m, i, j, angle + m.pi) == Negate(MixByAngle(m, i, j, angle))
  {
    HalfTurn(m, angle);
    NegateMix(i, j, m.cos(angle), m.sin(angle));
  }

  /** Negating a combination of `i` and `j` negates both coefficients. */
  lemma NegateMix(i: Vec3, j: Vec3, c: real, s: real)
    ensures Negate(Add(Scale(i, c), Scale(j, s))) == Add(Scale(i, -c), Scale(j, -s))
  {
  }

  /** A full turn brings the ellipse back to the same point. */
  lemma MixFullTurn(m: MathLib, i: Vec3, j: Vec3, angle: real)
    requires TrigLaws(m)
    ensures MixByAngle(m, i, j, angle + 2.0 * m.pi) == MixByAngle(m, i, j, angle)
  {
    FullTurn(m, angle);
  }

  /** With an orthonormal `i` and `j` the ellipse is the unit circle. */
  lemma MixIsUnit(m: MathLib, i: Vec3, j: Vec3, angle: real)
    requires SqrtLaws(m) && TrigLaws(m)
    requires Orthonormal(i, j)
    ensures Length(m, MixByAngle(m, i, j, angle)) == 1.0
  {
    var c, s := m.cos(angle), m.sin(angle);
    DotOfMixes(i, j, c, s, c, s);
    assert c * c + s * s == 1.0;
    LengthFromDot(m, MixByAngle(m, i, j, angle), 1.0);
  }
}
