/**
 * One pass of the render loop, without the drawing: the spin angle as a
 * function of elapsed time, the write of that angle into the triangle, and
 * the six vertices, front face then back face, handed to the vertex buffer.
 */
module Frame {
  import opened Numerics
  import opened Vector
  import opened Geometry

  /** One vertex of the buffer: where it is and which way its face points. */
  datatype Vertex = Vertex(position: Vec3, normal: Vec3)

  /** The spin angle after `seconds` of elapsed time: one full turn every
      eight seconds. */
  function SpinAt(m: MathLib, seconds: real): real {
    seconds * 0.125 * 2.0 * m.pi
  }

  /** Appends one vertex per position, each tagged with `normal`, keeping the
      vertices already there. */
  method ExtendWithNormal(vertices: seq<Vertex>, positions: seq<Vec3>, normal: Vec3)
    returns (extended: seq<Vertex>)
    ensures |extended| == |vertices| + |positions|
    ensures extended[..|vertices|] == vertices
    ensures forall k :: 0 <= k < |positions| ==>
              extended[|vertices| + k] == Vertex(positions[k], normal)
  {
    extended := vertices;
    for n := 0 to |positions|
      invariant |extended| == |vertices| + n
      invariant extended[..|vertices|] == vertices
      invariant forall k :: 0 <= k < n ==> extended[|vertices| + k] == Vertex(positions[k], normal)
    {
      extended := extended + [Vertex(positions[n], normal)];
    }
  }

  /** Sets the triangle's spin for a frame drawn `seconds` after start and
      builds that frame's vertices: the front-face corners carrying the
      normal, then the back-face corners carrying the reversed normal. */
  method AssembleFrame(m: MathLib, triangle: Triangle, seconds: real)
    returns (updated: Triangle, vertices: seq<Vertex>)
    ensures updated == triangle.(spin := SpinAt(m, seconds))
    ensures |vertices| == 6
    ensures forall k :: 0 <= k < 3 ==>
              vertices[k] == Vertex(Corners(m, updated)[k], Normal(m, updated))
    ensures forall k :: 0 <= k < 3 ==>
              vertices[3 + k] == Vertex(BackfaceCorners(m, updated)[k], Negate(Normal(m, updated)))
  {
    var spin := SpinAt(m, seconds);
    vertices := [];
    updated := triangle.(spin := spin);
    var normal := Normal(m, updated);
    vertices := ExtendWithNormal(vertices, Corners(m, updated), normal);
    var backfaceNormal := Negate(normal);
    vertices := ExtendWithNormal(vertices, BackfaceCorners(m, updated), backfaceNormal);
    assert |vertices| == 6;
  }

  // ---------------------------------------------------------------------
  // Timing

  /** The triangle starts unspun and has turned half a turn after four
      seconds; every four seconds add half a turn, every eight seconds a full
      turn. */
  lemma SpinAdvances(m: MathLib, seconds: real)
    ensures SpinAt(m, 0.0) == 0.0 && SpinAt(m, 4.0) == m.pi
    ensures SpinAt(m, seconds + 4.0) == SpinAt(m, seconds) + m.pi
    ensures SpinAt(m, seconds + 8.0) == SpinAt(m, seconds) + 2.0 * m.pi
  {
  }

  /** The spin only grows with time. */
  lemma SpinIncreasing(m: MathLib, earlier: real, later: real)
    requires TrigLaws(m)
    requires earlier < later
    ensures SpinAt(m, earlier) < SpinAt(m, later)
  {
  }

  /** Frames drawn eight seconds apart show the same triangle. */
  lemma EightSecondPeriod(m: MathLib, t: Triangle, seconds: real)
    requires TrigLaws(m)
    ensures Corners(m, t.(spin := SpinAt(m, seconds + 8.0)))
         == Corners(m, t.(spin := SpinAt(m, seconds)))
    ensures Normal(m, t.(spin := SpinAt(m, seconds + 8.0)))
         == Normal(m, t.(spin := SpinAt(m, seconds)))
  {
    var s := t.(spin := SpinAt(m, seconds));
    SpinAdvances(m, seconds);
    FullTurnRepeats(m, s);
    assert s.(spin := s.spin + 2.0 * m.pi) == t.(spin := SpinAt(m, seconds + 8.0));
  }

  /** Four seconds on, the front face is where the back face was. */
  lemma FourSecondsShowBackface(m: MathLib, t: Triangle, seconds: real)
    requires TrigLaws(m)
    ensures Corners(m, t.(spin := SpinAt(m, seconds + 4.0)))
         == BackfaceCorners(m, t.(spin := SpinAt(m, seconds)))
    ensures Normal(m, t.(spin := SpinAt(m, seconds + 4.0)))
         == Negate(Normal(m, t.(spin := SpinAt(m, seconds))))
  {
    var s := t.(spin := SpinAt(m, seconds));
    SpinAdvances(m, seconds);
    BackfaceIsHalfTurn(m, s);
    assert s.(spin := s.spin + m.pi) == t.(spin := SpinAt(m, seconds + 4.0));
  }
}
