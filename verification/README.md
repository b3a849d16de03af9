# Tiny pseudo-3D renderer, modelled in Dafny

A model of the core of a terminal renderer that draws a first-person view of
a closed floor-plan polygon. The camera moves the polygon into its own frame,
projects each corner's lateral offset onto a fixed depth, and clips the polygon
at the near plane (depth 0). It then turns each depth into a wall height and
fills one trapezoid per wall on a character grid.

Scalars are Dafny `real`. The modules follow the source files:

- `vector2.dfy`, module `Vectors` (src/vector2.rs): the `Vector2` value type and its operators.
  - `Rotate` takes the cosine and sine of the angle as arguments, because trigonometry is not modelled.
  - The compound assignments (`+=`, `-=`, `*=`, `/=`) are methods that return the updated value.
- `clip.dfy`, module `NearClip` (the clip inside `Camera::see`, src/lib.rs):
  - `WrapFixed`, `SameBucket`, `Kept`, `Dedup` and `Clip` specify the clip on sequences.
  - `FixWrapEdge` and `DedupInPlace` are the in-place code on the vertex buffer. They are proved to compute those functions.
  - `DedupInPlace` runs `Vec::dedup_by` with a read index and a write index, as the standard library does.
  - The closure is called as `same_bucket(candidate, last kept)`. It may edit both vertices, and `true` drops the candidate.
- `camera.dfy`, module `Scene` (src/lib.rs):
  - `World`.
  - The `Camera` class, with the fields src/lib.rs declares. `rotate` and `translate` update those fields in place.
  - The `to_orthographic` and height-map stages as sequence maps.
  - `See`, which runs the whole pipeline on a fresh array.
  - `PI` is the exact rational value of the f64 constant, and `TAU = 2 * PI`.
- `render.dfy`, module `Render` (src/main.rs):
  - The curses window is an `array2<char>`: `grid[y, x]` is row `y`, column `x`.
  - It holds `fill_if`, the label and wall drawing of `render_frame`, and the key table of the event loop.

Behaviour the model reproduces as the code has it:

- The interpolation `v.0 - (u.0 - v.1) * u.1 / (u.1 - v.1)` is kept exactly as written (`NearClip.Cross`).
  - It is not the point where the edge crosses depth 0.
  - `NearClip.CrossIsNotTheEdgeCrossing` exhibits such an edge: from (1, -1) to (1, 1), where the formula gives 0 instead of 1.
  - Each division happens only where one depth is strictly negative and the other strictly positive, so the divisor is nonzero. The verifier checks this at every call.
- The wrap fix-up's second case writes `u.0` twice, at src/lib.rs:61-62.
  - The first vertex therefore becomes `(0, u.y)` and keeps its negative depth.
- The dedup pass does not clamp every vertex behind the camera to depth 0. What happens to such a vertex depends on its kept neighbour:
  - Next to a vertex in front (before or after it), it is moved to depth 0.
  - After a kept vertex that is behind, it is dropped.
  - After a kept vertex at depth 0, it is kept unchanged, with its negative depth.
  - A polygon wholly behind the camera collapses to its first corner, which keeps its negative depth (`NearClip.ClipAllBehind`). The height map then gives one vertex whose height has the opposite sign of `y_fixpoint * vertex_height`. That height is negative when the factor is positive.
- A polygon with corners on both sides of the camera always comes out of the clip with a vertex at depth 0 (`NearClip.StraddlingWorldHitsDepthZero`). The height map divides by that depth.
- `to_orthographic` rotates by `+rotation`.
- The height map uses `y_fixpoint * vertex_height / depth`. There is no separate z fixpoint.
- `Camera::rotate` keeps an angle in [-PI, PI] when the step is at most PI.
  - Both ends of that range can be reached: PI becomes -PI and -PI becomes PI (`Scene.WrappedEnds`).

## Model

| member | source | states |
|---|---|---|
| `Vectors.Add` | src/vector2.rs:47-54 | componentwise sum (definition); `Vectors.ZeroIsIdentity` and `Vectors.AddNegRoundTrip` state its identity and inverse |
| `Vectors.Neg` | src/vector2.rs:63-70 | componentwise negation (definition); `Vectors.NegInvolution` states that it is an involution |
| `Vectors.Scale` | src/vector2.rs:88-95 | `v * s`, each component times `s` (definition); `Vectors.ScaleCommutes` and `Vectors.Div` relate it to `s * v` and `v / s` |
| `Vectors.Dot` | src/vector2.rs:113-121 | the dot product `a * b` (definition); `Vectors.DotSymmetric` states symmetry |
| `Vectors.Rotate` | src/vector2.rs:37-44 | counter-clockwise rotation by the angle with the given cosine and sine (definition); `Vectors.RotatePreservesLength` states it keeps the length |
| `Vectors.Default` | src/vector2.rs:139-143 | `Default` is the vector (0, 0) |
| `Vectors.Sub` | src/vector2.rs:72-79 | `a - b`, defined as `a + (-b)`, is the componentwise difference |
| `Vectors.ScaleLeft` | src/vector2.rs:97-104 | `s * v` scales each component of `v` by `s` |
| `Vectors.Div` | src/vector2.rs:123-130 | `v / s` needs `s != 0`; scaling the result back by `s` gives `v` |
| `Vectors.SqrMagnitude` | src/vector2.rs:22-25 | the squared magnitude is never negative |
| `Vectors.AddAssign` | src/vector2.rs:56-61 | `+=` leaves `self` equal to `self + rhs`; subtracting `rhs` undoes it |
| `Vectors.SubAssign` | src/vector2.rs:81-86 | `-=` leaves `self` equal to `self - rhs`; adding `rhs` undoes it |
| `Vectors.MulAssign` | src/vector2.rs:106-111 | `*=` leaves `self` equal to `self * rhs`, which equals `rhs * self` |
| `Vectors.DivAssign` | src/vector2.rs:132-137 | `/=` needs `rhs != 0` and leaves `self` equal to `self / rhs`; scaling back by `rhs` restores it |
| `Vectors.ConstantVectors` | src/vector2.rs:8-20 | `default()` equals `zero()`; `forward()` is (0, 1) and `right()` is (1, 0); both are unit vectors and orthogonal |
| `Vectors.ZeroIsIdentity` | src/vector2.rs:47-79 | zero is the identity of `+`; `a + (-a)` and `a - a` are zero |
| `Vectors.NegInvolution` | src/vector2.rs:63-70 | `-(-a) == a` |
| `Vectors.ScaleCommutes` | src/vector2.rs:88-104 | `v * s == s * v` |
| `Vectors.DotSymmetric` | src/vector2.rs:113-121 | the dot product is symmetric, and `a * a` equals `sqr_magnitude(a)` |
| `Vectors.RotatePreservesLength` | src/vector2.rs:37-44 | rotating by an angle with cos² + sin² = 1 keeps the squared magnitude |
| `Vectors.AddNegRoundTrip` | src/vector2.rs:47-79 | adding `d` and then `-d` returns to the starting point |
| `NearClip.Cross` | src/lib.rs:54 | the interpolation `v.0 - (u.0 - v.1) * u.1 / (u.1 - v.1)` exactly as written (also at lines 61, 75 and 82); defined only where `u.1 != v.1` |
| `NearClip.WrapFixed` | src/lib.rs:49-67 | last behind and first in front: the last vertex becomes `(Cross(last, first), 0)`. Last in front and first behind: the first becomes `(0, first.y)`. Otherwise nothing changes. Interior vertices never change |
| `NearClip.FixWrapEdge` | src/lib.rs:49-67 | the in-place fix-up through `last_mut`/`first_mut`, one component at a time, leaves the buffer equal to `WrapFixed` of the old buffer |
| `NearClip.SameBucket` | src/lib.rs:68-88 | the closure drops the candidate exactly when its depth is <= 0 and the kept vertex is behind the camera, and a drop changes nothing. A candidate behind the camera after a kept vertex in front is moved to `(Cross(v, u), 0)`. A kept vertex behind the camera followed by a candidate in front is moved to `(Cross(v, u), 0)`. No other edit happens |
| `NearClip.Step` | src/lib.rs:68-88 | offering one candidate keeps the kept list or grows it by one |
| `NearClip.Kept` | src/lib.rs:68-88 | after the pass, between 1 and `n` vertices are kept |
| `NearClip.Dedup` | src/lib.rs:68 | `Vec::dedup_by`: lengths 0 and 1 unchanged, otherwise `Kept`; its properties are the `Dedup*` lemmas below |
| `NearClip.Clip` | src/lib.rs:47-89 | the wrap fix-up followed by the dedup pass; its properties are `ClipAllInFront`, `ClipAllBehind` and `StraddlingWorldHitsDepthZero` |
| `NearClip.DedupInPlace` | src/lib.rs:68 | the read/write-index compaction leaves the first `len` slots equal to `Dedup` of the old buffer, and `len` is at most the buffer length |
| `NearClip.KeptInFront` | src/lib.rs:80-86 | the vertices in front of the camera come out of the pass unchanged and in the same order, and no other vertex comes out in front |
| `NearClip.KeptShape` | src/lib.rs:68-88 | the kept list is nonempty and no longer than the input. Only its last vertex may be behind the camera. Its first slot is the first input vertex, or that vertex moved to depth 0 when it was behind. Every kept vertex is an input vertex or lies at depth 0 |
| `NearClip.DedupLength` | src/lib.rs:68-88 | the pass never grows the buffer and never empties a nonempty one; inputs of length 0 or 1 pass through unchanged |
| `NearClip.DedupBehindOnlyAtEnd` | src/lib.rs:69-87 | after the pass every vertex except possibly the last has depth >= 0 |
| `NearClip.DedupInFront` | src/lib.rs:80-86 | the pass keeps the subsequence of vertices in front of the camera exactly |
| `NearClip.DedupKeepsHead` | src/lib.rs:68-88 | the first slot is never removed, and it is unchanged when the first vertex is not behind the camera |
| `NearClip.ClipAllInFront` | src/lib.rs:47-89 | a polygon wholly in front of the camera passes the clip unchanged |
| `NearClip.ClipAllBehind` | src/lib.rs:47-89 | a polygon wholly behind the camera is reduced to its first corner |
| `NearClip.EdgeCrossing` | src/lib.rs:54 | reference for the comment "intersection of the line between the two points with the x axis": the point `(r, 0)` lies on the line through `v` and `u` |
| `NearClip.CrossIsNotTheEdgeCrossing` | src/lib.rs:54 | the interpolation as written gives 0 on the edge (1, -1) to (1, 1), while `EdgeCrossing` gives 1, so the two differ |
| `NearClip.StepKeepsZeroDepth` | src/lib.rs:68-88 | once a vertex at depth 0 is kept, it stays kept through every later candidate |
| `NearClip.KeptLeavingFront` | src/lib.rs:68-88 | a polygon whose first vertex is in front either stays wholly in front or gets a vertex at depth 0 from the pass |
| `NearClip.KeptLeavingBehind` | src/lib.rs:68-88 | a polygon whose first vertex is behind, with no vertex at depth 0, either stays wholly behind or gets a vertex at depth 0 from the pass |
| `NearClip.StraddlingWorldHitsDepthZero` | src/lib.rs:47-89 | when no depth is 0 and the depths have both signs, the clip output has a vertex at depth 0 |
| `Scene.CameraSpace` | src/lib.rs:35-36 | a vertex minus the camera position, rotated by the camera's rotation (definition) |
| `Scene.ToOrthographic` | src/lib.rs:30-40 | keeps the vertex count and carries each depth through. Each output x is where the ray from the camera through the vertex meets the plane at depth `y_fixpoint` |
| `Scene.ToOrthographicPointwise` | src/lib.rs:30-39 | each output vertex depends only on its own input vertex: the projection of a concatenation is the concatenation of the projections |
| `Scene.HeightMap` | src/lib.rs:91-97 | keeps the vertex count and each x; each height times its depth equals `y_fixpoint * vertex_height` |
| `Scene.NearerIsTaller` | src/lib.rs:95 | when the factor is positive, a nearer vertex gets a larger positive height |
| `Scene.Seen` | src/lib.rs:44-98 | `see` as a function: `HeightMap(Clip(ToOrthographic(world)))`, defined when no depth is 0 after the projection and after the clip |
| `Scene.SeenAllInFront` | src/lib.rs:44-98 | a world wholly in front of the camera gives one renderable vertex per corner, each with its projected x |
| `Scene.StraddlingWorldCannotBeSeen` | src/lib.rs:44-98 | when the camera-space corners lie on both sides of the camera, the clip leaves a vertex at depth 0, so `see` divides by zero |
| `Scene.Wrapped` | src/lib.rs:102-107 | subtract TAU at or above PI, add TAU at or below -PI (definition); `Scene.WrappedBounds` and `Scene.WrappedEnds` state its range |
| `Scene.WrappedBounds` | src/lib.rs:101-108 | the normalised angle differs from `old + radian` by 0 or ±TAU. It stays in [-PI, PI] when the old angle is in [-PI, PI] and the step is at most PI, and is unchanged strictly inside (-PI, PI) |
| `Scene.WrappedEnds` | src/lib.rs:103-107 | PI normalises to -PI and -PI to PI |
| `Scene.Camera.constructor` | src/lib.rs:19-27 | a camera holds exactly the given position, rotation, y fixpoint and vertex height |
| `Scene.Camera.See` | src/lib.rs:44-98 | on a fresh buffer: project, fix the wrap edge, dedup and map to heights, giving `HeightMap(Clip(ToOrthographic(world)))`. The camera is not changed |
| `Scene.Camera.Rotate` | src/lib.rs:100-108 | the rotation becomes `Wrapped(old + radian)` and stays within [-PI, PI] under the bound above; no other field changes |
| `Scene.Camera.Translate` | src/lib.rs:110-113 | the position becomes `old position + v`; no other field changes |
| `Render.FillIf` | src/main.rs:41-51 | every cell in rows `0..max_y` and columns `0..max_x` holds `c` where `f(x, y)` holds; every other cell is unchanged |
| `Render.Decimal` | src/main.rs:60 | `format!("{}", n)`: a nonempty string, with a minus sign followed by the digits of `-n` when `n < 0` |
| `Render.LabelChar` | src/main.rs:58-65 | the last character of `format!("{}", n)` (definition); `Render.LabelIsLastDigit` states which digit it is |
| `Render.LabelIsLastDigit` | src/main.rs:58-65 | a label is the last character of the decimal form of `n`, which is the digit `abs(n) % 10`, and the same for `n` and `-n` |
| `Render.DrawLabels` | src/main.rs:54-65 | after clearing, column 0 of row `y` holds the label of `y - max_y / 2`. The bottom row holds the label of `x - max_x / 2` in column `x`, including the bottom-left cell. Every other cell is blank |
| `Render.WallSpan` | src/main.rs:70-74 | for a wall with `v.x != u.x`, the boundary `a * x + b` equals `v.y / 2` at `v.x` and `u.y / 2` at `u.x`; the column range is from min to max of the two x |
| `Render.InSpan` | src/main.rs:75-79 | the `fill_if` closure of `render_wall!` on centre-relative coordinates (definition); `Render.InSpanSymmetric` characterises it |
| `Render.InSpanSymmetric` | src/main.rs:75-79 | a centre-relative cell is inside a wall exactly when its column is in range and its distance from the centre row is at most `a * x + b`; walls are symmetric about the centre row |
| `Render.CornerColumn` | src/main.rs:70-78 | in a corner's column the wall covers exactly the rows within half that corner's height of the centre row |
| `Render.RenderWall` | src/main.rs:68-81 | cells inside the wall's span, relative to the centre, become 'O'; every other cell is unchanged |
| `Render.DrawWalls` | src/main.rs:82-91 | draws the walls (p0, p1), ..., (p(n-2), p(n-1)), then (p(n-1), p0). A cell ends up 'O' exactly when one of these walls covers it, and keeps its label or blank otherwise. An empty list panics |
| `Render.RenderFrame` | src/main.rs:53-92 | the finished grid is the labels overlaid with the walls of what the camera sees; it panics exactly when the world is empty |
| `Render.Dispatch` | src/main.rs:16-36 | 'w' moves by forward rotated, 's' by its negation, 'd' by right rotated and 'a' by its negation; every move direction has squared length cos² + sin² of the rotation. 'q' turns by +1 and 'e' by -1. `KeyDC` and only it quits, and `KeyResize` and only it resizes. No key, an unlisted key or an unlisted character does nothing |
| `Render.MoveRoundTrip` | src/main.rs:17-28 | at the same rotation, 'w' then 's' and 'd' then 'a' return the camera to where it was |
| `Render.HandleInput` | src/main.rs:16-36 | performs the dispatched command on the camera. Moves change only the position and turns only the rotation; other keys leave both alone. It quits exactly on `KeyDC` and keeps the rotation within [-PI, PI] |

## Left out

- f64 arithmetic: rounding, infinities and NaN. The `partial_cmp(...).unwrap()` panics at src/lib.rs:50, 69 and 71 happen only on NaN, so they cannot occur over reals.
- `sin`/`cos`: callers pass the cosine and sine of the camera's rotation to `Vectors.Rotate`, `Scene.Camera.See`, `Render.RenderFrame`, `Render.Dispatch` and `Render.HandleInput`. Nothing ties them to the `rotation` field, and no trigonometric identity is used.
- `magnitude` and `normalized` (src/vector2.rs:27-35): they need `sqrt`, and nothing in the core calls them.
- Scene.Camera.See: requires that no vertex has depth 0 after the projection and after the clip. The source divides by depth at src/lib.rs:37 and 95 even where the clip has set the depth to 0, and the result is infinite or NaN. This excludes every world whose corners lie on both sides of the camera (`Scene.StraddlingWorldCannotBeSeen`). `See` is therefore specified only for worlds wholly in front of or wholly behind the camera, and for the empty world. No interpolated vertex reaches its result.
- Render.RenderFrame: requires distinct screen x for the two ends of every wall, including the wrap wall. A single-vertex world is excluded by this. Together with the precondition of `Scene.Camera.See` it leaves only worlds wholly in front of the camera, and the empty world. A world wholly behind collapses to one vertex, and a world across the near plane is excluded as above. The source divides by zero at src/main.rs:71 in that case.
- Render.RenderFrame: requires a window of at least one row and one column, as a curses window always has.
- The event loop itself (src/main.rs:14-37): `getch`, `refresh`, resizing the window and terminal setup and teardown are I/O. `Render.HandleInput` models one pass of the loop's `match`.
- `parse_config` (src/main.rs:94-131): file and TOML reading. The fields it sets that `Camera` does not declare (`z_fixpoint`, `translation_speed`, `rotation_speed`) are not part of this model.
- 32-bit wrap-around of the `i32` cell coordinates in src/main.rs: grid sizes are small, so the coordinates are unbounded integers.
