/** Points and vectors (chalk/point.py), with their componentwise arithmetic.

    Coordinates are reals, so the equalities below hold exactly where the
    library's floats hold them approximately. `length`, `angle`, `from_polar`
    and `rotate` are transcendental and are not part of this model; the
    `apply_transform` methods are in module Transforms, which needs these types.
 */
module Points {

  /** An absolute position. */
  datatype Point = Point(x: real, y: real)

  /** A displacement. */
  datatype Vector = Vector(dx: real, dy: real)

  const ORIGIN: Point := Point(0.0, 0.0)

  const Zero: Vector := Vector(0.0, 0.0)

  /** `Point.__add__`: the point displaced by `v`. */
  function Add(p: Point, v: Vector): Point {
    Point(p.x + v.dx, p.y + v.dy)
  }

  /** `Point.__sub__`: the vector that leads from `q` to `p`. */
  function Diff(p: Point, q: Point): (r: Vector)
    ensures Add(q, r) == p
  {
    Vector(p.x - q.x, p.y - q.y)
  }

  /** `Vector.__add__`. */
  function VAdd(v: Vector, w: Vector): Vector {
    Vector(v.dx + w.dx, v.dy + w.dy)
  }

  /** `Vector.__sub__`. */
  function VSub(v: Vector, w: Vector): (r: Vector)
    ensures VAdd(r, w) == v
  {
    Vector(v.dx - w.dx, v.dy - w.dy)
  }

  /** `Vector.__neg__`: an involution whose sum with the original is zero. */
  function Neg(v: Vector): Vector {
    Vector(-v.dx, -v.dy)
  }

  /** `Vector.__mul__`: scaling by `a`. */
  function Mul(v: Vector, a: real): Vector {
    Vector(a * v.dx, a * v.dy)
  }

  /** Vector addition is commutative with unit `Zero`; negation is an
      involution whose sum with the original is zero; subtraction adds the
      negation. */
  lemma VectorLaws(u: Vector, v: Vector)
    ensures VAdd(u, v) == VAdd(v, u)
    ensures VAdd(u, Zero) == u
    ensures Neg(Neg(u)) == u
    ensures VAdd(u, Neg(u)) == Zero
    ensures VSub(u, v) == VAdd(u, Neg(v))
  {
  }

  /** Scaling distributes over addition, composes by multiplying the
      factors, and scales by 1 and -1 give the vector and its negation. */
  lemma ScalingLaws(u: Vector, v: Vector, a: real, b: real)
    ensures Mul(VAdd(u, v), a) == VAdd(Mul(u, a), Mul(v, a))
    ensures Mul(Mul(v, a), b) == Mul(v, a * b)
    ensures Mul(v, 1.0) == v
    ensures Mul(v, -1.0) == Neg(v)
  {
    assert a * (u.dx + v.dx) == a * u.dx + a * v.dx;
    assert a * (u.dy + v.dy) == a * u.dy + a * v.dy;
    assert b * (a * v.dx) == (a * b) * v.dx;
    assert b * (a * v.dy) == (a * b) * v.dy;
  }

  /** Adding a point's displacement to another point and back. */
  lemma AddDiffRoundTrip(p: Point, q: Point, v: Vector)
    ensures Diff(Add(p, v), p) == v
    ensures Add(p, Diff(q, p)) == q
    ensures Add(Add(p, v), Neg(v)) == p
  {
  }
}
