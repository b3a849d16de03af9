/** A 2D vector over the reals: the value type `Vector2(x, y)` with the
    arithmetic operators the renderer uses.  Scalars are `real`, so f64
    rounding is not modelled; the angle of `Rotate` is given by its cosine
    and sine, since trigonometry is outside the model. */
module Vectors {

  datatype Vector2 = Vector2(x: real, y: real)

  /** The zero vector (0, 0). */
  function Zero(): Vector2 { Vector2(0.0, 0.0) }

  /** The unit vector the camera looks along, (0, 1). */
  function Forward(): Vector2 { Vector2(0.0, 1.0) }

  /** The unit vector to the camera's right, (1, 0). */
  function Right(): Vector2 { Vector2(1.0, 0.0) }

  /** `Vector2::default()`, defined through `zero()`. */
  function Default(): (r: Vector2)
    ensures r.x == 0.0 && r.y == 0.0
  {
    Zero()
  }

  function Add(a: Vector2, b: Vector2): Vector2 {
    Vector2(a.x + b.x, a.y + b.y)
  }

  function Neg(a: Vector2): Vector2 {
    Vector2(-a.x, -a.y)
  }

  /** Subtraction is defined as adding the negation. */
  function Sub(a: Vector2, b: Vector2): (r: Vector2)
    ensures r.x == a.x - b.x && r.y == a.y - b.y
  {
    Add(a, Neg(b))
  }

  /** `v * s`: scale each component by `s`. */
  function Scale(v: Vector2, s: real): Vector2 {
    Vector2(v.x * s, v.y * s)
  }

  /** `s * v`: defined by delegating to `v * s`. */
  function ScaleLeft(s: real, v: Vector2): (r: Vector2)
    ensures r.x == s * v.x && r.y == s * v.y
  {
    Scale(v, s)
  }

  /** `v / s`: divide each component by `s`; over the reals `s` must be nonzero. */
  function Div(v: Vector2, s: real): (r: Vector2)
    requires s != 0.0
    ensures Scale(r, s) == v
  {
    Vector2(v.x / s, v.y / s)
  }

  /** The dot product `a * b`. */
  function Dot(a: Vector2, b: Vector2): real {
    a.x * b.x + a.y * b.y
  }

  function SqrMagnitude(v: Vector2): (r: real)
    ensures r >= 0.0
  {
    v.x * v.x + v.y * v.y
  }

  /** Counter-clockwise rotation about the origin by the angle whose cosine
      is `cosR` and whose sine is `sinR`. */
  function Rotate(v: Vector2, cosR: real, sinR: real): Vector2 {
    Vector2(v.x * cosR - v.y * sinR, v.x * sinR + v.y * cosR)
  }

  /** `*self += rhs` */
  method AddAssign(self: Vector2, rhs: Vector2) returns (updated: Vector2)
    ensures updated == Add(self, rhs)
    ensures Sub(updated, rhs) == self
  {
    updated := Add(self, rhs);
  }

  /** `*self -= rhs` */
  method SubAssign(self: Vector2, rhs: Vector2) returns (updated: Vector2)
    ensures updated == Sub(self, rhs)
    ensures Add(updated, rhs) == self
  {
    updated := Sub(self, rhs);
  }

  /** `*self *= rhs` */
  method MulAssign(self: Vector2, rhs: real) returns (updated: Vector2)
    ensures updated == Scale(self, rhs)
    ensures updated == ScaleLeft(rhs, self)
  {
    updated := Scale(self, rhs);
  }

  /** `*self /= rhs` */
  method DivAssign(self: Vector2, rhs: real) returns (updated: Vector2)
    requires rhs != 0.0
    ensures updated == Div(self, rhs)
    ensures Scale(updated, rhs) == self
  {
    updated := Div(self, rhs);
  }

  lemma ConstantVectors()
    ensures Default() == Zero()
    ensures Forward() == Vector2(0.0, 1.0) && Right() == Vector2(1.0, 0.0)
    ensures Dot(Forward(), Right()) == 0.0
    ensures SqrMagnitude(Forward()) == 1.0 && SqrMagnitude(Right()) == 1.0
  {
  }

  lemma ZeroIsIdentity(a: Vector2)
    ensures Add(a, Zero()) == a && Add(Zero(), a) == a
    ensures Add(a, Neg(a)) == Zero()
    ensures Sub(a, a) == Zero()
  {
  }

  lemma NegInvolution(a: Vector2)
    ensures Neg(Neg(a)) == a
  {
  }

  lemma ScaleCommutes(v: Vector2, s: real)
    ensures Scale(v, s) == ScaleLeft(s, v)
  {
  }

  lemma DotSymmetric(a: Vector2, b: Vector2)
    ensures Dot(a, b) == Dot(b, a)
    ensures Dot(a, a) == SqrMagnitude(a)
  {
  }

  /** A rotation by a genuine angle (cos^2 + sin^2 = 1) keeps the length. */
  lemma RotatePreservesLength(v: Vector2, cosR: real, sinR: real)
    requires cosR * cosR + sinR * sinR == 1.0
    ensures SqrMagnitude(Rotate(v, cosR, sinR)) == SqrMagnitude(v)
  {
    var r := Rotate(v, cosR, sinR);
    calc {
      SqrMagnitude(r);
      (v.x * cosR - v.y * sinR) * (v.x * cosR - v.y * sinR)
        + (v.x * sinR + v.y * cosR) * (v.x * sinR + v.y * cosR);
      v.x * v.x * (cosR * cosR + sinR * sinR) + v.y * v.y * (cosR * cosR + sinR * sinR);
      v.x * v.x + v.y * v.y;
    }
  }

  /** Negation keeps the length. */
  lemma NegPreservesLength(v: Vector2)
    ensures SqrMagnitude(Neg(v)) == SqrMagnitude(v)
  {
  }

  /** The rotated unit vectors have squared length cos^2 + sin^2. */
  lemma RotatedUnitLengths(cosR: real, sinR: real)
    ensures Rotate(Forward(), cosR, sinR) == Vector2(-sinR, cosR)
    ensures Rotate(Right(), cosR, sinR) == Vector2(cosR, sinR)
    ensures SqrMagnitude(Rotate(Forward(), cosR, sinR)) == cosR * cosR + sinR * sinR
    ensures SqrMagnitude(Rotate(Right(), cosR, sinR)) == cosR * cosR + sinR * sinR
  {
  }

  /** Moving by `d` and then by `-d` returns to the start. */
  lemma AddNegRoundTrip(p: Vector2, d: Vector2)
    ensures Add(Add(p, d), Neg(d)) == p
    ensures Sub(Add(p, d), d) == p
  {
  }
}
