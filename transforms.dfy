/** Affine transforms (chalk/transform.py).

    A transform is a small tree of variants whose meaning is a cairo matrix
    `(xx, yx, xy, yy, x0, y0)` acting on a point by
    `x' = xx*x + xy*y + x0` and `y' = yx*x + yy*y + y0`.
    `Compose(t, u)` denotes `u().multiply(t())`, which in cairo means
    "apply u, then t".
 */
module Transforms {

  import opened Points

  /** A cairo matrix. */
  datatype Matrix = Matrix(xx: real, yx: real, xy: real, yy: real, x0: real, y0: real)

  /** cairo's `transform_point`. */
  function TransformPoint(m: Matrix, p: Point): Point {
    Point(m.xx * p.x + m.xy * p.y + m.x0, m.yx * p.x + m.yy * p.y + m.y0)
  }

  /** `cairo.Matrix()`. */
  const IdentityMatrix: Matrix := Matrix(1.0, 0.0, 0.0, 1.0, 0.0, 0.0)

  /** cairo's `a.multiply(b)`: the matrix that first applies `a`, then `b`. */
  function Multiply(a: Matrix, b: Matrix): Matrix {
    Matrix(a.xx * b.xx + a.yx * b.xy,
           a.xx * b.yx + a.yx * b.yy,
           a.xy * b.xx + a.yy * b.xy,
           a.xy * b.yx + a.yy * b.yy,
           a.x0 * b.xx + a.y0 * b.xy + b.x0,
           a.x0 * b.yx + a.y0 * b.yy + b.y0)
  }

  /** One coordinate of a product: the affine form `(p, q, e)` applied after
      the two forms `(a1, a2, a3)` and `(b1, b2, b3)`. */
  lemma CoordinateActs(p: real, q: real, e: real, a1: real, a2: real, a3: real,
                       b1: real, b2: real, b3: real, x: real, y: real)
    ensures (a1 * p + b1 * q) * x + (a2 * p + b2 * q) * y + (a3 * p + b3 * q + e)
         == p * (a1 * x + a2 * y + a3) + q * (b1 * x + b2 * y + b3) + e
  {
    assert p * (a1 * x + a2 * y + a3) == (a1 * p) * x + (a2 * p) * y + a3 * p;
    assert q * (b1 * x + b2 * y + b3) == (b1 * q) * x + (b2 * q) * y + b3 * q;
  }

  /** The product acts as "apply a, then b" on every point. */
  lemma MultiplyActs(a: Matrix, b: Matrix, p: Point)
    ensures TransformPoint(Multiply(a, b), p) == TransformPoint(b, TransformPoint(a, p))
  {
    CoordinateActs(b.xx, b.xy, b.x0, a.xx, a.xy, a.x0, a.yx, a.yy, a.y0, p.x, p.y);
    assert TransformPoint(Multiply(a, b), p).x == TransformPoint(b, TransformPoint(a, p)).x;
    CoordinateActs(b.yx, b.yy, b.y0, a.xx, a.xy, a.x0, a.yx, a.yy, a.y0, p.x, p.y);
    assert TransformPoint(Multiply(a, b), p).y == TransformPoint(b, TransformPoint(a, p)).y;
  }

  /** A matrix is determined by the images of (0,0), (1,0) and (0,1). */
  lemma MatrixExtensional(a: Matrix, b: Matrix)
    requires TransformPoint(a, Point(0.0, 0.0)) == TransformPoint(b, Point(0.0, 0.0))
    requires TransformPoint(a, Point(1.0, 0.0)) == TransformPoint(b, Point(1.0, 0.0))
    requires TransformPoint(a, Point(0.0, 1.0)) == TransformPoint(b, Point(0.0, 1.0))
    ensures a == b
  {
  }

  /** Matrix multiplication is associative. */
  lemma MultiplyAssociative(a: Matrix, b: Matrix, c: Matrix)
    ensures Multiply(Multiply(a, b), c) == Multiply(a, Multiply(b, c))
  {
    var l, r := Multiply(Multiply(a, b), c), Multiply(a, Multiply(b, c));
    forall p <- [Point(0.0, 0.0), Point(1.0, 0.0), Point(0.0, 1.0)]
      ensures TransformPoint(l, p) == TransformPoint(r, p)
    {
      MultiplyActs(Multiply(a, b), c, p);
      MultiplyActs(a, b, p);
      MultiplyActs(a, Multiply(b, c), p);
      MultiplyActs(b, c, TransformPoint(a, p));
    }
    MatrixExtensional(l, r);
  }

  /** The identity matrix is a two-sided unit of `Multiply`. */
  lemma MultiplyIdentity(m: Matrix)
    ensures Multiply(IdentityMatrix, m) == m
    ensures Multiply(m, IdentityMatrix) == m
  {
  }

  /** The value of `math.pi` as Python prints it. */
  const PI: real := 3.141592653589793

  /** The Transform variants. `Rotate` keeps its angle and, beside it, the
      cosine and sine that cairo's `init_rotate` computes from the angle;
      the model treats these two as uninterpreted reals. */
  datatype Transform =
    | Identity
    | Scale(ax: real, ay: real)
    | Rotate(theta: real, cos: real, sin: real)
    | Translate(dx: real, dy: real)
    | ShearX(shear: real)
    | ShearY(shear: real)
    | Compose(t: Transform, u: Transform)

  /** `t()`: the cairo matrix a transform denotes. */
  function MatrixOf(tr: Transform): Matrix {
    match tr
    case Identity => IdentityMatrix
    case Scale(ax, ay) => Matrix(ax, 0.0, 0.0, ay, 0.0, 0.0)
    case Rotate(_, c, s) => Matrix(c, s, -s, c, 0.0, 0.0)
    case Translate(dx, dy) => Matrix(1.0, 0.0, 0.0, 1.0, dx, dy)
    case ShearX(l) => Matrix(1.0, 0.0, l, 1.0, 0.0, 0.0)
    case ShearY(l) => Matrix(1.0, l, 0.0, 1.0, 0.0, 0.0)
    case Compose(t, u) => Multiply(MatrixOf(u), MatrixOf(t))
  }

  /** `Point.apply_transform` (chalk/point.py): `t().transform_point(x, y)`. */
  function ApplyToPoint(p: Point, tr: Transform): Point {
    TransformPoint(MatrixOf(tr), p)
  }

  /** What every variant does to a point; a `Compose(t, u)` applies `u`
      first, then `t`. */
  lemma ApplyToPointMeaning(p: Point, tr: Transform)
    ensures tr.Identity? ==> ApplyToPoint(p, tr) == p
    ensures tr.Scale? ==> ApplyToPoint(p, tr) == Point(tr.ax * p.x, tr.ay * p.y)
    ensures tr.Translate? ==> ApplyToPoint(p, tr) == Point(p.x + tr.dx, p.y + tr.dy)
    ensures tr.ShearX? ==> ApplyToPoint(p, tr) == Point(p.x + tr.shear * p.y, p.y)
    ensures tr.ShearY? ==> ApplyToPoint(p, tr) == Point(p.x, tr.shear * p.x + p.y)
    ensures tr.Rotate? ==> ApplyToPoint(p, tr)
                           == Point(tr.cos * p.x - tr.sin * p.y, tr.sin * p.x + tr.cos * p.y)
    ensures tr.Compose? ==> ApplyToPoint(p, tr) == ApplyToPoint(ApplyToPoint(p, tr.u), tr.t)
  {
    var q := ApplyToPoint(p, tr);
    match tr
    case Identity =>
      assert q.x == p.x && q.y == p.y;
    case Scale(ax, ay) =>
      assert q.x == ax * p.x && q.y == ay * p.y;
    case Rotate(_, c, s) =>
      assert q.x == c * p.x - s * p.y && q.y == s * p.x + c * p.y;
    case Translate(dx, dy) =>
      assert q.x == p.x + dx && q.y == p.y + dy;
    case ShearX(l) =>
      assert q.x == p.x + l * p.y && q.y == p.y;
    case ShearY(l) =>
      assert q.x == p.x && q.y == l * p.x + p.y;
    case Compose(t, u) =>
      MultiplyActs(MatrixOf(u), MatrixOf(t), p);
  }

  /** `Vector.apply_transform` (chalk/point.py). It calls `transform_point`,
      not `transform_distance`, so a translation moves a vector too. */
  function ApplyToVector(v: Vector, tr: Transform): (r: Vector)
    ensures tr.Translate? ==> r == Vector(v.dx + tr.dx, v.dy + tr.dy)
    ensures r == Diff(ApplyToPoint(Point(v.dx, v.dy), tr), ORIGIN)
  {
    ApplyToPointMeaning(Point(v.dx, v.dy), tr);
    var p := TransformPoint(MatrixOf(tr), Point(v.dx, v.dy));
    Vector(p.x, p.y)
  }

  /** `Compose` is associative up to the matrix it denotes. */
  lemma ComposeAssociative(a: Transform, b: Transform, c: Transform)
    ensures MatrixOf(Compose(Compose(a, b), c)) == MatrixOf(Compose(a, Compose(b, c)))
  {
    MultiplyAssociative(MatrixOf(c), MatrixOf(b), MatrixOf(a));
  }

  /** Composing after transforms that denote the same matrix gives the same
      matrix. */
  lemma ComposeCongruent(t1: Transform, t2: Transform, tr: Transform)
    requires MatrixOf(t1) == MatrixOf(t2)
    ensures MatrixOf(Compose(t1, tr)) == MatrixOf(Compose(t2, tr))
  {
  }

  /** The matrix of `u` after `t` after the identity. */
  lemma AfterIdentityMatrix(t: Transform, u: Transform)
    ensures MatrixOf(Compose(Compose(Identity, t), u)) == Multiply(MatrixOf(u), Multiply(MatrixOf(t), IdentityMatrix))
  {
    assert MatrixOf(Compose(Identity, t)) == Multiply(MatrixOf(t), IdentityMatrix);
  }

  /** `Identity` is a two-sided unit of `Compose` up to the matrix. */
  lemma ComposeIdentity(t: Transform)
    ensures MatrixOf(Compose(Identity, t)) == MatrixOf(t)
    ensures MatrixOf(Compose(t, Identity)) == MatrixOf(t)
  {
    MultiplyIdentity(MatrixOf(t));
  }

  // The helpers of `Transformable`: the transform each one applies.

  /** `scale(a)`. */
  function Uniform(a: real): Transform {
    Scale(a, a)
  }

  /** `scale_x(a)`. */
  function StretchX(a: real): Transform {
    Scale(a, 1.0)
  }

  /** `scale_y(a)`. */
  function StretchY(a: real): Transform {
    Scale(1.0, a)
  }

  /** `rotate_by(turns)`: a rotation by `2 * pi * turns` radians; `cos` and
      `sin` are those of that angle. */
  function RotateBy(turns: real, cos: real, sin: real): Transform {
    Rotate(2.0 * PI * turns, cos, sin)
  }

  /** `reflect_x()`. */
  function ReflectX(): Transform {
    Scale(-1.0, 1.0)
  }

  /** `reflect_y()`. */
  function ReflectY(): Transform {
    Scale(1.0, -1.0)
  }

  /** `translate_by(v)`. */
  function TranslateBy(v: Vector): Transform {
    Translate(v.dx, v.dy)
  }

  /** What each helper does to a point: the scalings multiply the named
      coordinates by `a`, the reflections negate one coordinate, and
      `translate_by` displaces the point by the vector. Reflecting twice
      gives the point back. */
  lemma HelpersAct(p: Point, a: real, v: Vector)
    ensures ApplyToPoint(p, Uniform(a)) == Point(a * p.x, a * p.y)
    ensures ApplyToPoint(p, StretchX(a)) == Point(a * p.x, p.y)
    ensures ApplyToPoint(p, StretchY(a)) == Point(p.x, a * p.y)
    ensures ApplyToPoint(p, ReflectX()) == Point(-p.x, p.y)
    ensures ApplyToPoint(p, ReflectY()) == Point(p.x, -p.y)
    ensures ApplyToPoint(p, TranslateBy(v)) == Add(p, v)
    ensures ApplyToPoint(ApplyToPoint(p, ReflectX()), ReflectX()) == p
    ensures ApplyToPoint(ApplyToPoint(p, ReflectY()), ReflectY()) == p
  {
    ApplyToPointMeaning(p, Uniform(a));
    ApplyToPointMeaning(p, StretchX(a));
    ApplyToPointMeaning(p, StretchY(a));
    ApplyToPointMeaning(p, ReflectX());
    ApplyToPointMeaning(p, ReflectY());
    ApplyToPointMeaning(p, TranslateBy(v));
    ApplyToPointMeaning(Point(-p.x, p.y), ReflectX());
    ApplyToPointMeaning(Point(p.x, -p.y), ReflectY());
  }

  /** `reflect_x()` twice denotes the identity matrix. */
  lemma ReflectXInvolutive()
    ensures MatrixOf(Compose(ReflectX(), ReflectX())) == IdentityMatrix
  {
  }

  /** `reflect_y()` twice denotes the identity matrix. */
  lemma ReflectYInvolutive()
    ensures MatrixOf(Compose(ReflectY(), ReflectY())) == IdentityMatrix
  {
  }

  /** `rotate_by(turns)` prints as a rotation by `360 * turns` degrees. */
  lemma RotateBySvg(turns: real, cos: real, sin: real, num: real -> string)
    ensures ToSvg(RotateBy(turns, cos, sin), num) == "rotate(" + num(360.0 * turns) + ")"
  {
    assert (2.0 * PI * turns / PI) * 180.0 == 360.0 * turns;
  }

  // The SVG `transform` attribute. Python's `str` of a float is not part of
  // this model; it is the parameter `num`.

  /** `to_svg()`. */
  function ToSvg(tr: Transform, num: real -> string): string {
    match tr
    case Identity => "scale(1)"
    case Scale(ax, ay) => "scale(" + num(ax) + " " + num(ay) + ")"
    case Rotate(theta, _, _) => "rotate(" + num((theta / PI) * 180.0) + ")"
    case Translate(dx, dy) => "translate(" + num(dx) + " " + num(dy) + ")"
    case ShearX(l) => "matrix(1 0 " + num(l) + " 1 0 0)"
    case ShearY(l) => "matrix(1 " + num(l) + " 0 1 0 0)"
    case Compose(t, u) => ToSvg(t, num) + " " + ToSvg(u, num)
  }

  /** The non-Compose transforms of a tree, left to right. */
  function Leaves(tr: Transform): (r: seq<Transform>)
    ensures |r| >= 1
    ensures forall i :: 0 <= i < |r| ==> !r[i].Compose?
  {
    if tr.Compose? then Leaves(tr.t) + Leaves(tr.u) else [tr]
  }

  /** The SVG strings of a list of transforms, separated by one space. */
  function SvgList(ls: seq<Transform>, num: real -> string): string
    requires |ls| >= 1
  {
    if |ls| == 1 then ToSvg(ls[0], num) else ToSvg(ls[0], num) + " " + SvgList(ls[1..], num)
  }

  /** The matrix of a list of transforms applied right to left, which is how an
      SVG transform list is read. */
  function Product(ls: seq<Transform>): Matrix
    requires |ls| >= 1
  {
    if |ls| == 1 then MatrixOf(ls[0]) else Multiply(Product(ls[1..]), MatrixOf(ls[0]))
  }

  lemma {:induction false} SvgListAppend(a: seq<Transform>, b: seq<Transform>, num: real -> string)
    requires |a| >= 1 && |b| >= 1
    ensures SvgList(a + b, num) == SvgList(a, num) + " " + SvgList(b, num)
  {
    assert (a + b)[0] == a[0];
    if |a| == 1 {
      assert (a + b)[1..] == b;
    } else {
      assert (a + b)[1..] == a[1..] + b;
      SvgListAppend(a[1..], b, num);
      var h := ToSvg(a[0], num) + " ";
      assert SvgList(a + b, num) == h + (SvgList(a[1..], num) + " " + SvgList(b, num));
      assert SvgList(a, num) == h + SvgList(a[1..], num);
    }
  }

  lemma {:induction false} ProductAppend(a: seq<Transform>, b: seq<Transform>)
    requires |a| >= 1 && |b| >= 1
    ensures Product(a + b) == Multiply(Product(b), Product(a))
  {
    if |a| == 1 {
      assert (a + b)[1..] == b;
    } else {
      assert (a + b)[1..] == a[1..] + b;
      ProductAppend(a[1..], b);
      MultiplyAssociative(Product(b), Product(a[1..]), MatrixOf(a[0]));
    }
  }

  /** A transform's SVG string and its matrix both depend only on its leaves:
      the string lists them left to right, and the matrix applies them right to
      left, so the string and the matrix describe the same map. */
  lemma {:induction false} LeavesDetermine(tr: Transform, num: real -> string)
    ensures ToSvg(tr, num) == SvgList(Leaves(tr), num)
    ensures MatrixOf(tr) == Product(Leaves(tr))
  {
    if tr.Compose? {
      LeavesDetermine(tr.t, num);
      LeavesDetermine(tr.u, num);
      SvgListAppend(Leaves(tr.t), Leaves(tr.u), num);
      ProductAppend(Leaves(tr.t), Leaves(tr.u));
    }
  }

  /** Two transform trees with the same leaves denote the same matrix and print
      the same SVG string, however their Compose nodes are nested. */
  lemma SameLeavesSameMeaning(a: Transform, b: Transform, num: real -> string)
    requires Leaves(a) == Leaves(b)
    ensures MatrixOf(a) == MatrixOf(b)
    ensures ToSvg(a, num) == ToSvg(b, num)
  {
    LeavesDetermine(a, num);
    LeavesDetermine(b, num);
  }
}
