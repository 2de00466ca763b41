# Spinning triangle geometry

A Dafny model of the geometry at the heart of `everything/src/main.rs`, a
small glium demo that draws one isosceles triangle spinning about its axis of
symmetry, front face and back face, one frame after another.

The model has four modules:

- `Numerics` (`numerics.dfy`): the scalar library the program calls —
  `f32::sqrt`, `f32::cos`, `f32::sin` and `PI` — as the fields of a
  `MathLib` value. Nothing is assumed about them except through the
  hypotheses `SqrtLaws` (sqrt returns the non-negative root) and `TrigLaws`
  (pi is positive, cos 0 = 1, sin 0 = 0, cos² + sin² = 1, and the
  quarter-turn shifts cos(x + pi/2) = -sin x and sin(x + pi/2) = cos x).
  Lemmas that need them take them as preconditions. `TrigLawsSatisfiable`
  shows a library that meets `TrigLaws`, so the trigonometric preconditions
  can be met. Its `sqrt` is the identity and does not meet `SqrtLaws`.
- `Vector` (`vector.dfy`): the `[f32; 3]` helpers `scale`, `negate`, `add`,
  `subtract`, `length`, `normalize` and `mix_by_angle` over a `Vec3` of reals,
  with their algebra. This includes bilinearity of the dot product, which
  underlies `length`, and a cross product that measures which way round a
  face runs.
- `Geometry` (`triangle.dfy`): the `Triangle` value and its `corners`,
  `backface_corners` and `normal`. It proves the shape the doc comments
  describe. The tip is fixed and the base corners are symmetric about the
  base midpoint. With orthonormal basis vectors, each base corner is
  `abs(base_radius)` from the midpoint and the normal is a unit vector. The
  triangle is isosceles, and the normal is at right angles to the face. The
  corners wind against the normal the same way at every spin, and the back
  face equals the front face half a turn on.
- `Frame` (`frame.dfy`): the spin formula of the render loop, and the
  vertex-assembly block lifted into a method. The method returns a copy of
  the triangle with the new spin, where the program overwrites the field. It
  then appends the three front-face vertices with the normal, and the three
  back-face vertices with the negated normal.

Everything is over `real`. All f32 rounding is outside the model.

## Model

| member | source | states |
|---|---|---|
| `Vector.Scale` | everything/src/main.rs:15-17 | every component of the result is the input's component times `s`; `ScaleTwice` and `LengthOfScale` give its algebra |
| `Vector.Negate` | everything/src/main.rs:19-21 | every component of the result is the input's component negated; adding the result to the input gives the origin |
| `Vector.NegateInvolutive` | everything/src/main.rs:19-21 | negating twice gives back the input |
| `Vector.Add` | everything/src/main.rs:23-25 | every component of the result is the sum of the inputs' components; `SubtractUndoesAdd` undoes it |
| `Vector.Subtract` | everything/src/main.rs:27-29 | subtract, defined as add of negate, is the component-wise difference `a[k] - b[k]`; adding `b` back to the result gives `a` |
| `Vector.SubtractUndoesAdd` | everything/src/main.rs:23-29 | subtracting `b` from `add(a, b)` gives `a` |
| `Vector.ScaleTwice` | everything/src/main.rs:15-17 | scaling by `s` and then by `t` is scaling by `s * t` |
| `Vector.NegateScale` | everything/src/main.rs:15-21 | scaling a negated vector is negating the scaled vector, so adding it is subtracting the scaled vector |
| `Vector.OffsetBothWays` | everything/src/main.rs:23-29 | points reached from `mid` by `+d` and `-d` each lie `d` from `mid` on opposite sides; they sum to `2 * mid` and differ by `2 * d` |
| `Vector.Length` | everything/src/main.rs:31-33 | when `sqrt` keeps its laws, the length is non-negative and its square is the sum of the squared components |
| `Vector.LengthFromDot` | everything/src/main.rs:31-33 | a vector whose squared components sum to `r * r`, with `r >= 0`, has length exactly `r` |
| `Vector.LengthOfScale` | everything/src/main.rs:31-33 | the length of `scale(a, s)` is `abs(s)` times the length of `a` |
| `Vector.Normalize` | everything/src/main.rs:35-39 | defined only when the length is non-zero, which is the program's assertion that the inverse length is finite; scaling the result back by the length gives the input |
| `Vector.OriginHasLengthZero` | everything/src/main.rs:35-39 | the zero vector has length 0, so `normalize` is not defined on it, where the program's assertion fails |
| `Vector.NormalizeIsUnit` | everything/src/main.rs:35-39 | the normalized vector has length 1 |
| `Vector.MixByAngle` | everything/src/main.rs:41-47 | each component is `cos(angle) * i[k] + sin(angle) * j[k]`; the lemmas below place it on the ellipse |
| `Vector.MixAtZero` | everything/src/main.rs:41-47 | at angle 0 the ellipse point is `i`, the end of the major axis |
| `Vector.MixAtQuarterTurn` | everything/src/main.rs:41-47 | at angle pi/2 the ellipse point is `j`, the end of the minor axis |
| `Vector.MixQuarterTurnAhead` | everything/src/main.rs:44-47 | a quarter turn ahead of `angle` the point is `-sin(angle) * i + cos(angle) * j` |
| `Vector.MixHalfTurnAhead` | everything/src/main.rs:44-47 | half a turn ahead the point is the negated point |
| `Vector.MixFullTurn` | everything/src/main.rs:44-47 | a full turn of `2 * pi` gives the same point |
| `Vector.MixIsUnit` | everything/src/main.rs:41-47 | with orthonormal `i` and `j` the ellipse is the unit circle: every point has length 1 |
| `Geometry.Triangle` | everything/src/main.rs:49-73 | the triangle's six fields: tip, base midpoint, base radius, the two basis vectors and the spin |
| `Geometry.TowardsCorner` | everything/src/main.rs:87-89 | the ellipse point at `spin`, from the base midpoint towards the first base corner; `CornerDistance` and `TowardsCornerPerpendicularToAxis` state its length and direction |
| `Geometry.Corners` | everything/src/main.rs:86-95 | three corners; the first is the tip for every spin; the two base corners are symmetric about `base_midpt` (`c1 - mid == mid - c2`, `c1 + c2 == 2 * mid`) |
| `Geometry.BackfaceCorners` | everything/src/main.rs:97-100 | the corners with indices 1 and 2 swapped and index 0 kept; the same multiset of points |
| `Geometry.CornerDistance` | everything/src/main.rs:86-92 | with orthonormal basis vectors each base corner is `abs(base_radius)` from the base midpoint for every spin, as the `base_radius` field documentation at lines 59-61 says |
| `Geometry.TowardsCornerPerpendicularToAxis` | everything/src/main.rs:87-89 | the corner direction is at right angles to the spin axis (tip minus base midpoint) when both basis vectors are |
| `Geometry.Isosceles` | everything/src/main.rs:86-95 | the tip is equally far from both base corners for every spin when the axis is at right angles to the basis vectors, so the triangle is isosceles as the documentation of `Triangle` (lines 49-50) says |
| `Geometry.Normal` | everything/src/main.rs:102-106 | the ellipse point at `spin + pi/2`; `NormalFormula`, `NormalIsUnit` and the perpendicularity lemmas state what it is |
| `Geometry.NormalFormula` | everything/src/main.rs:102-106 | the normal, the ellipse point at `spin + pi/2`, is `-sin(spin) * i + cos(spin) * j` |
| `Geometry.NormalIsUnit` | everything/src/main.rs:102-106 | with orthonormal basis vectors the normal has length 1, as its doc comment promises |
| `Geometry.NormalPerpendicularToCornerDirection` | everything/src/main.rs:102-106 | the normal is at right angles to the corner direction whenever `i` and `j` are at right angles and equally long |
| `Geometry.NormalPerpendicularToAxis` | everything/src/main.rs:102-106 | the normal is at right angles to the spin axis when the axis is at right angles to both basis vectors |
| `Geometry.NormalPerpendicularToBase` | everything/src/main.rs:86-106 | the normal is at right angles to the base edge from the second corner to the first, for every spin, when `i` and `j` are at right angles and equally long; nothing is needed of the axis |
| `Geometry.NormalPerpendicularToFace` | everything/src/main.rs:102-106 | under both conditions the normal is at right angles to all three edges of the triangle |
| `Geometry.FrontWinding` | everything/src/main.rs:86-95 | measured against the normal, the corners wind by `2 * base_radius * ((tip - base_midpt) . (i x j))`, which does not depend on the spin; negative means clockwise seen from the front, the order line 93 requires, and `base_unit_i` and `base_unit_j` (lines 63-68) fix the sign |
| `Geometry.BackfaceWinding` | everything/src/main.rs:97-106 | the back-face corners, measured against the negated normal, wind exactly as the front corners do against the normal |
| `Geometry.AtRest` | everything/src/main.rs:63-69 | at spin 0 the first base corner is `base_radius` along `i` from the base midpoint, the second along `-i`, and the normal is `j`, as the field documentation of `base_unit_i` and `base_unit_j` says |
| `Geometry.AtQuarterTurn` | everything/src/main.rs:86-106 | at spin pi/2 the base corners lie along `j` and `-j` from the base midpoint and the normal is `-i` |
| `Geometry.BackfaceIsHalfTurn` | everything/src/main.rs:97-106 | the back-face corners are the corners of the same triangle half a turn on, and the normal half a turn on is the negated normal |
| `Geometry.FullTurnRepeats` | everything/src/main.rs:71-72 | a spin of `2 * pi` more gives the same corners and normal |
| `Frame.Vertex` | everything/src/main.rs:75-79 | a vertex record: a position and a normal |
| `Frame.SpinAt` | everything/src/main.rs:146 | the spin after `seconds`, `seconds * 0.125 * 2 * pi`; `SpinAdvances` and `SpinIncreasing` state how it grows |
| `Frame.ExtendWithNormal` | everything/src/main.rs:155-159 | extending the vertex list keeps the vertices already there and appends one vertex per position, in order, each carrying the given normal |
| `Frame.AssembleFrame` | everything/src/main.rs:146-160 | the triangle's spin becomes `seconds * 0.125 * 2 * pi` and nothing else about it changes; exactly 6 vertices; 0-2 are the corners with the normal, 3-5 the back-face corners with the negated normal |
| `Frame.SpinAdvances` | everything/src/main.rs:146 | the spin is 0 at start and pi after 4 seconds; 4 more seconds add half a turn, 8 more a full turn |
| `Frame.SpinIncreasing` | everything/src/main.rs:146 | a later time gives a strictly larger spin |
| `Frame.EightSecondPeriod` | everything/src/main.rs:146 | frames 8 seconds apart have the same corners and normal |
| `Frame.FourSecondsShowBackface` | everything/src/main.rs:146 | 4 seconds later the front-face corners are the earlier back-face corners and the normal is reversed |

## Left out

- Window, context and display creation, shader compilation and the culling
  `DrawParameters` (everything/src/main.rs:110-128): graphics-library
  plumbing.
- `VertexBuffer::new`, `draw`, `finish`, `clear_color`, the `poll_events`
  close handling and the error returns of these calls
  (everything/src/main.rs:148-149, 161-178): foreign graphics calls and event
  handling. The `implement_vertex!` registration (line 81) is left out for
  the same reason.
- The clock (everything/src/main.rs:138-145): the elapsed time reaches the
  model as the `seconds` parameter of `Frame.AssembleFrame`. The conversion of
  a `Duration` into `f32` seconds is not modelled.
- `f32` arithmetic: every computation is over the reals. There is no rounding,
  overflow, NaN or infinity.
- `f32::sqrt`, `f32::cos`, `f32::sin` and `PI` are not computed. They are
  fields of `MathLib`, and only the facts in `SqrtLaws` and `TrigLaws` are
  known about them.
- Vector.Normalize: the program asserts that `1 / length` is not infinite. Over
  the reals this is the precondition that the length is non-zero. A tiny
  non-zero length whose inverse overflows `f32` is not modelled.
- Zero length: that the length is zero only for the zero vector, which would
  make the precondition of `normalize` exactly "a non-zero vector", is not
  proved.
- The startup triangle (everything/src/main.rs:129-136) is not modelled. Its
  `base_unit_j` of `(-0.707, 0, 0.707)` is not exactly a unit vector, so the
  orthonormality lemmas do not apply to it.
- Clockwise winding as seen on screen depends on the vertex shader and
  projection, which are not part of this model. The model measures winding
  against the triangle's own normal instead (`Geometry.FrontWinding`,
  `Geometry.BackfaceWinding`).
- Geometry.FrontWinding: the value is proved for every spin. A lemma that
  turns it directly into "clockwise at one spin implies clockwise at every
  spin", an inequality between two spins, is not stated.
- The `Triangle` is a value. The frame step returns the triangle with its
  new spin instead of overwriting the field of a mutable local.
