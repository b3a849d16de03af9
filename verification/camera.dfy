/** The world (a cyclic list of wall corners) and the camera: its state,
    the commands that move it, and `See`, the pipeline that turns a world
    into renderable `(screen x, height)` pairs. */
module Scene {
  import opened Vectors
  import NearClip

  /** `std::f64::consts::PI`, as the exact value of that double. */
  const PI: real := 3.141592653589793115997963468544185161590576171875

  /** `std::f64::consts::TAU`, a full turn. */
  const TAU: real := 2.0 * PI

  /** The floor plan: wall corners in order, the last joined to the first. */
  datatype World = World(vertexes: seq<Vector2>)

  // ---------------------------------------------------------------------
  // The elementwise stages of the pipeline

  /** A vertex in the camera's frame: moved so the camera is at the origin,
      then rotated by the camera's rotation (given by its cosine and sine). */
  function CameraSpace(v: Vector2, position: Vector2, cosR: real, sinR: real): Vector2 {
    Rotate(Sub(v, position), cosR, sinR)
  }

  /** True when no vertex lands at depth 0 in the camera's frame. */
  predicate ProjectionDefined(vs: seq<Vector2>, position: Vector2, cosR: real, sinR: real) {
    forall i :: 0 <= i < |vs| ==> CameraSpace(vs[i], position, cosR, sinR).y != 0.0
  }

  /** `to_orthographic`: every vertex is moved into the camera's frame and
      its lateral coordinate is projected onto the plane at depth
      `yFixpoint`; the depth is carried through. */
  function ToOrthographic(world: World, position: Vector2, cosR: real, sinR: real, yFixpoint: real): (r: World)
    requires ProjectionDefined(world.vertexes, position, cosR, sinR)
    ensures |r.vertexes| == |world.vertexes|
    ensures forall i :: 0 <= i < |world.vertexes| ==>
      var c := CameraSpace(world.vertexes[i], position, cosR, sinR);
      r.vertexes[i].y == c.y && Scale(c, yFixpoint / c.y) == Vector2(r.vertexes[i].x, yFixpoint)
  {
    var vs := world.vertexes;
    World(seq(|vs|, i requires 0 <= i < |vs| =>
      var c := CameraSpace(vs[i], position, cosR, sinR);
      Vector2(c.x * yFixpoint / c.y, c.y)))
  }

  /** Each projected vertex depends on its own input vertex only: projecting
      two lists and concatenating is projecting their concatenation. */
  lemma ToOrthographicPointwise(a: seq<Vector2>, b: seq<Vector2>, position: Vector2, cosR: real, sinR: real, yFixpoint: real)
    requires ProjectionDefined(a, position, cosR, sinR) && ProjectionDefined(b, position, cosR, sinR)
    ensures ProjectionDefined(a + b, position, cosR, sinR)
    ensures ToOrthographic(World(a + b), position, cosR, sinR, yFixpoint).vertexes
         == ToOrthographic(World(a), position, cosR, sinR, yFixpoint).vertexes
          + ToOrthographic(World(b), position, cosR, sinR, yFixpoint).vertexes
  {
    assert forall i :: 0 <= i < |a + b| ==> (a + b)[i] == if i < |a| then a[i] else b[i - |a|];
  }

  /** True when no vertex is at depth 0. */
  predicate NoZeroDepth(vs: seq<Vector2>) {
    forall i :: 0 <= i < |vs| ==> vs[i].y != 0.0
  }

  /** The final map of `see`: depth becomes height, inversely proportional
      to depth with factor `yFixpoint * vertexHeight`; x is kept. */
  function HeightMap(vs: seq<Vector2>, yFixpoint: real, vertexHeight: real): (r: seq<Vector2>)
    requires NoZeroDepth(vs)
    ensures |r| == |vs|
    ensures forall i :: 0 <= i < |vs| ==>
      r[i].x == vs[i].x && r[i].y * vs[i].y == yFixpoint * vertexHeight
  {
    seq(|vs|, i requires 0 <= i < |vs| => Vector2(vs[i].x, yFixpoint * vertexHeight / vs[i].y))
  }

  /** With a positive factor, a nearer vertex gets a taller wall. */
  lemma NearerIsTaller(vs: seq<Vector2>, yFixpoint: real, vertexHeight: real, i: nat, j: nat)
    requires NoZeroDepth(vs)
    requires yFixpoint * vertexHeight > 0.0
    requires i < |vs| && j < |vs| && 0.0 < vs[i].y < vs[j].y
    ensures HeightMap(vs, yFixpoint, vertexHeight)[i].y > HeightMap(vs, yFixpoint, vertexHeight)[j].y > 0.0
  {
    var r := HeightMap(vs, yFixpoint, vertexHeight);
    var k := yFixpoint * vertexHeight;
    assert r[i].y * vs[i].y == k && r[j].y * vs[j].y == k;
    assert r[j].y > 0.0;
    var hi, hj, di, dj := r[i].y, r[j].y, vs[i].y, vs[j].y;
    assert hi * di == hj * dj;
    assert hj * dj > hj * di;
    assert hi * di > hj * di;
  }

  /** The whole of `see` as a function of the camera's state. */
  function Seen(world: World, position: Vector2, cosR: real, sinR: real, yFixpoint: real, vertexHeight: real): seq<Vector2>
    requires ProjectionDefined(world.vertexes, position, cosR, sinR)
    requires NoZeroDepth(NearClip.Clip(ToOrthographic(world, position, cosR, sinR, yFixpoint).vertexes))
  {
    HeightMap(NearClip.Clip(ToOrthographic(world, position, cosR, sinR, yFixpoint).vertexes), yFixpoint, vertexHeight)
  }

  /** A world wholly in front of the camera is projected without clipping:
      one renderable vertex per corner, each keeping its projected x. */
  lemma SeenAllInFront(world: World, position: Vector2, cosR: real, sinR: real, yFixpoint: real, vertexHeight: real)
    requires forall i :: 0 <= i < |world.vertexes| ==> CameraSpace(world.vertexes[i], position, cosR, sinR).y > 0.0
    ensures ProjectionDefined(world.vertexes, position, cosR, sinR)
    ensures NoZeroDepth(NearClip.Clip(ToOrthographic(world, position, cosR, sinR, yFixpoint).vertexes))
    ensures |Seen(world, position, cosR, sinR, yFixpoint, vertexHeight)| == |world.vertexes|
    ensures forall i :: 0 <= i < |world.vertexes| ==>
      Seen(world, position, cosR, sinR, yFixpoint, vertexHeight)[i].x
        == ToOrthographic(world, position, cosR, sinR, yFixpoint).vertexes[i].x
  {
    var o := ToOrthographic(world, position, cosR, sinR, yFixpoint).vertexes;
    NearClip.ClipAllInFront(o);
  }

  /** `see` is defined only on worlds wholly on one side of the camera: when
      the projected corners lie on both sides, the clip always leaves a vertex
      at depth 0, where the height map would divide by zero. */
  lemma StraddlingWorldCannotBeSeen(world: World, position: Vector2, cosR: real, sinR: real, yFixpoint: real)
    requires ProjectionDefined(world.vertexes, position, cosR, sinR)
    requires exists i :: 0 <= i < |world.vertexes| && CameraSpace(world.vertexes[i], position, cosR, sinR).y < 0.0
    requires exists j :: 0 <= j < |world.vertexes| && CameraSpace(world.vertexes[j], position, cosR, sinR).y > 0.0
    ensures !NoZeroDepth(NearClip.Clip(ToOrthographic(world, position, cosR, sinR, yFixpoint).vertexes))
  {
    var o := ToOrthographic(world, position, cosR, sinR, yFixpoint).vertexes;
    var i :| 0 <= i < |world.vertexes| && CameraSpace(world.vertexes[i], position, cosR, sinR).y < 0.0;
    var j :| 0 <= j < |world.vertexes| && CameraSpace(world.vertexes[j], position, cosR, sinR).y > 0.0;
    assert o[i].y < 0.0 && o[j].y > 0.0;
    NearClip.StraddlingWorldHitsDepthZero(o);
  }

  /** Angle normalisation after a rotation: subtract a full turn at or
      above PI, add one at or below -PI. */
  function Wrapped(angle: real): real {
    if angle >= PI then angle - TAU
    else if angle <= -PI then angle + TAU
    else angle
  }

  /** The normalised angle differs from the input by 0 or a full turn, and
      when a rotation of at most half a turn is applied to an angle in
      [-PI, PI] the result stays in [-PI, PI]. */
  lemma WrappedBounds(angle: real, radian: real)
    ensures Wrapped(angle + radian) == angle + radian
         || Wrapped(angle + radian) == angle + radian - TAU
         || Wrapped(angle + radian) == angle + radian + TAU
    ensures -PI <= angle <= PI && -PI <= radian <= PI ==> -PI <= Wrapped(angle + radian) <= PI
    ensures -PI < angle + radian < PI ==> Wrapped(angle + radian) == angle + radian
  {
  }

  /** Both ends of [-PI, PI] are reached: PI maps to -PI and -PI to PI. */
  lemma WrappedEnds()
    ensures Wrapped(PI) == -PI && Wrapped(-PI) == PI
  {
  }

  // ---------------------------------------------------------------------
  // The camera

  class Camera {
    var position: Vector2
    /** In radians. */
    var rotation: real
    /** The depth of the projection plane. */
    var yFixpoint: real
    /** The height of a wall corner. */
    var vertexHeight: real

    constructor (position: Vector2, rotation: real, yFixpoint: real, vertexHeight: real)
      ensures this.position == position && this.rotation == rotation
      ensures this.yFixpoint == yFixpoint && this.vertexHeight == vertexHeight
    {
      this.position := position;
      this.rotation := rotation;
      this.yFixpoint := yFixpoint;
      this.vertexHeight := vertexHeight;
    }

    /** True when `see` can run on `world` without dividing by zero; `cosR`
        and `sinR` are the cosine and sine of `rotation`. */
    predicate CanSee(world: World, cosR: real, sinR: real)
      reads this
    {
      ProjectionDefined(world.vertexes, position, cosR, sinR) &&
      NoZeroDepth(NearClip.Clip(ToOrthographic(world, position, cosR, sinR, yFixpoint).vertexes))
    }

    /** `see`: project the world, clip it at the near plane in a fresh
        buffer, and turn depths into heights.  The camera is not changed. */
    method See(world: World, cosR: real, sinR: real) returns (seen: World)
      requires CanSee(world, cosR, sinR)
      ensures seen.vertexes == Seen(world, position, cosR, sinR, yFixpoint, vertexHeight)
    {
      var result := ToOrthographic(world, position, cosR, sinR, yFixpoint);
      var vs := result.vertexes;
      var a := new Vector2[|vs|](i requires 0 <= i < |vs| => vs[i]);
      assert a[..] == vs;
      NearClip.FixWrapEdge(a);
      var len := NearClip.DedupInPlace(a);
      seen := World(HeightMap(a[..len], yFixpoint, vertexHeight));
    }

    /** `rotate`: add `radian`, then bring the angle back by a full turn
        when it reached PI or -PI.  Nothing else changes. */
    method Rotate(radian: real)
      modifies this
      ensures rotation == Wrapped(old(rotation) + radian)
      ensures -PI <= old(rotation) <= PI && -PI <= radian <= PI ==> -PI <= rotation <= PI
      ensures position == old(position) && yFixpoint == old(yFixpoint) && vertexHeight == old(vertexHeight)
    {
      rotation := rotation + radian;
      if rotation >= PI {
        rotation := rotation - TAU;
      } else if rotation <= -PI {
        rotation := rotation + TAU;
      }
      WrappedBounds(old(rotation), radian);
    }

    /** `translate`: move the camera by `v`.  Nothing else changes. */
    method Translate(v: Vector2)
      modifies this
      ensures position == Add(old(position), v)
      ensures rotation == old(rotation) && yFixpoint == old(yFixpoint) && vertexHeight == old(vertexHeight)
    {
      position := AddAssign(position, v);
    }
  }
}
