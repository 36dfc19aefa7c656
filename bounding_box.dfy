/** Axis-aligned bounding boxes (chalk/bounding_box.py).

    A box is given by its top-left and bottom-right corners; y grows
    downwards, so `top <= bottom` for a box that is not turned inside out.
    Nothing in the class forces that order: `from_limits` stores whatever it
    is given. Every box that `apply_transform` returns has it, because the
    result is rebuilt by enclosing the four transformed corners.
 */
module BoundingBoxes {

  import opened Wrappers
  import opened Points
  import opened Transforms

  datatype BoundingBox = BoundingBox(tl: Point, br: Point)

  function Min(a: real, b: real): real {
    if a <= b then a else b
  }

  function Max(a: real, b: real): real {
    if a <= b then b else a
  }

  function Left(b: BoundingBox): real {
    b.tl.x
  }

  function Top(b: BoundingBox): real {
    b.tl.y
  }

  function Right(b: BoundingBox): real {
    b.br.x
  }

  function Bottom(b: BoundingBox): real {
    b.br.y
  }

  function Width(b: BoundingBox): real {
    b.br.x - b.tl.x
  }

  function Height(b: BoundingBox): real {
    b.br.y - b.tl.y
  }

  /** The top-right corner. */
  function Tr(b: BoundingBox): Point {
    Point(Right(b), Top(b))
  }

  /** The bottom-left corner. */
  function Bl(b: BoundingBox): Point {
    Point(Left(b), Bottom(b))
  }

  function Center(b: BoundingBox): Point {
    Point((Left(b) + Right(b)) / 2.0, (Top(b) + Bottom(b)) / 2.0)
  }

  /** Left edge not right of the right edge, top edge not below the bottom. */
  predicate Proper(b: BoundingBox) {
    Left(b) <= Right(b) && Top(b) <= Bottom(b)
  }

  predicate Contains(b: BoundingBox, p: Point) {
    Left(b) <= p.x <= Right(b) && Top(b) <= p.y <= Bottom(b)
  }

  /** Every edge of `a` lies on or inside the corresponding edge of `c`. */
  predicate Within(a: BoundingBox, c: BoundingBox) {
    Left(c) <= Left(a) && Top(c) <= Top(a) && Right(a) <= Right(c) && Bottom(a) <= Bottom(c)
  }

  /** `from_limits(left, top, right, bottom)`: the limits are stored as given. */
  function FromLimits(left: real, top: real, right: real, bottom: real): (r: BoundingBox)
    ensures Left(r) == left && Top(r) == top && Right(r) == right && Bottom(r) == bottom
    ensures Width(r) == right - left && Height(r) == bottom - top
  {
    BoundingBox(Point(left, top), Point(right, bottom))
  }

  /** `empty()`: not an empty set of points but the single point ORIGIN. */
  function Empty(): (r: BoundingBox)
    ensures Proper(r) && Width(r) == 0.0 && Height(r) == 0.0 && Center(r) == ORIGIN
  {
    BoundingBox(ORIGIN, ORIGIN)
  }

  /** The only point the empty box contains is the origin. */
  lemma EmptyContainsOnlyOrigin(p: Point)
    ensures Contains(Empty(), p) <==> p == ORIGIN
  {
  }

  /** The keys that `cardinal` accepts. */
  const Directions: set<string> := {"N", "S", "W", "E", "NW", "NE", "SW", "SE", "C"}

  /** `cardinal(dir)`: the point of the box named by a compass direction;
      any other key fails as the dictionary lookup does. */
  function Cardinal(b: BoundingBox, dir: string): (r: Result<Point>)
    ensures r.Err? <==> dir !in Directions
    ensures r.Err? ==> r.error == UnknownDirection
    ensures r.Ok? && Proper(b) ==> Contains(b, r.value)
  {
    if dir == "N" then Ok(Point(Left(b) + Width(b) / 2.0, Top(b)))
    else if dir == "S" then Ok(Point(Left(b) + Width(b) / 2.0, Bottom(b)))
    else if dir == "W" then Ok(Point(Left(b), Top(b) + Height(b) / 2.0))
    else if dir == "E" then Ok(Point(Right(b), Top(b) + Height(b) / 2.0))
    else if dir == "NW" then Ok(Point(Left(b), Top(b)))
    else if dir == "NE" then Ok(Point(Right(b), Top(b)))
    else if dir == "SW" then Ok(Point(Left(b), Bottom(b)))
    else if dir == "SE" then Ok(Point(Right(b), Bottom(b)))
    else if dir == "C" then Ok(Center(b))
    else Err(UnknownDirection)
  }

  /** The corners are the stored corners, and the edge midpoints share a
      coordinate with the center. */
  lemma CardinalPoints(b: BoundingBox)
    ensures Cardinal(b, "NW") == Ok(b.tl) && Cardinal(b, "SE") == Ok(b.br)
    ensures Cardinal(b, "NE") == Ok(Tr(b)) && Cardinal(b, "SW") == Ok(Bl(b))
    ensures Cardinal(b, "C") == Ok(Center(b))
    ensures Cardinal(b, "N") == Ok(Point(Center(b).x, Top(b)))
    ensures Cardinal(b, "S") == Ok(Point(Center(b).x, Bottom(b)))
    ensures Cardinal(b, "W") == Ok(Point(Left(b), Center(b).y))
    ensures Cardinal(b, "E") == Ok(Point(Right(b), Center(b).y))
  {
  }

  /** `enclose(p)`: the least box that covers `b` and contains `p`. */
  function Enclose(b: BoundingBox, p: Point): (r: BoundingBox)
    ensures Contains(r, p) && Within(b, r)
    ensures Proper(b) ==> Proper(r)
  {
    FromLimits(Min(Left(b), p.x), Min(Top(b), p.y), Max(Right(b), p.x), Max(Bottom(b), p.y))
  }

  /** Every box that covers `b` and contains `p` covers `enclose(p)`. */
  lemma EncloseLeast(b: BoundingBox, p: Point, c: BoundingBox)
    requires Within(b, c) && Contains(c, p)
    ensures Within(Enclose(b, p), c)
  {
  }

  /** Enclosing a point the box already contains changes nothing. */
  lemma EncloseInside(b: BoundingBox, p: Point)
    requires Contains(b, p)
    ensures Enclose(b, p) == b
  {
  }

  /** A box that covers another contains every point the other contains. */
  lemma WithinContains(a: BoundingBox, c: BoundingBox, p: Point)
    requires Within(a, c) && Contains(a, p)
    ensures Contains(c, p)
  {
  }

  /** `union(other)`: the least box that covers both boxes. */
  function Union(a: BoundingBox, o: BoundingBox): (r: BoundingBox)
    ensures Within(a, r) && Within(o, r)
    ensures Proper(a) || Proper(o) ==> Proper(r)
  {
    FromLimits(Min(Left(a), Left(o)), Min(Top(a), Top(o)),
               Max(Right(a), Right(o)), Max(Bottom(a), Bottom(o)))
  }

  /** Every box that covers both boxes covers their union. */
  lemma UnionLeast(a: BoundingBox, o: BoundingBox, c: BoundingBox)
    requires Within(a, c) && Within(o, c)
    ensures Within(Union(a, o), c)
  {
  }

  /** The union of two proper boxes contains all eight of their corners. */
  lemma UnionContainsCorners(a: BoundingBox, o: BoundingBox)
    requires Proper(a) && Proper(o)
    ensures Contains(Union(a, o), a.tl) && Contains(Union(a, o), Tr(a))
    ensures Contains(Union(a, o), Bl(a)) && Contains(Union(a, o), a.br)
    ensures Contains(Union(a, o), o.tl) && Contains(Union(a, o), Tr(o))
    ensures Contains(Union(a, o), Bl(o)) && Contains(Union(a, o), o.br)
  {
  }

  /** `union` is commutative, associative and idempotent. */
  lemma UnionLaws(a: BoundingBox, b: BoundingBox, c: BoundingBox)
    ensures Union(a, b) == Union(b, a)
    ensures Union(Union(a, b), c) == Union(a, Union(b, c))
    ensures Union(a, a) == a
  {
  }

  /** A box that covers `o` absorbs it under `union`; in particular a box
      containing the origin absorbs the empty box. */
  lemma UnionAbsorbs(a: BoundingBox, o: BoundingBox)
    requires Within(o, a)
    ensures Union(a, o) == a && Union(o, a) == a
  {
  }

  /** The box whose limits are the smaller and the larger of each pair of
      opposite limits of `b`: `b` put right side out. */
  function Normalize(b: BoundingBox): (r: BoundingBox)
    ensures Proper(r)
    ensures Proper(b) <==> r == b
  {
    FromLimits(Min(Left(b), Right(b)), Min(Top(b), Bottom(b)),
               Max(Left(b), Right(b)), Max(Top(b), Bottom(b)))
  }

  /** `b` moved by `v`. */
  function Shift(b: BoundingBox, v: Vector): (r: BoundingBox)
    ensures Width(r) == Width(b) && Height(r) == Height(b)
    ensures Center(r) == Add(Center(b), v)
    ensures Proper(b) <==> Proper(r)
  {
    BoundingBox(Add(b.tl, v), Add(b.br, v))
  }

  /** `apply_transform(t)`: the least box containing the images of the four
      corners of `b`. */
  function ApplyTransform(b: BoundingBox, t: Transform): (r: BoundingBox)
    ensures Proper(r)
  {
    var tl := ApplyToPoint(b.tl, t);
    EncloseAll(BoundingBox(tl, tl), [ApplyToPoint(Tr(b), t), ApplyToPoint(Bl(b), t), ApplyToPoint(b.br, t)])
  }

  /** `enclose` applied to each point in turn, first to last. */
  function EncloseAll(b: BoundingBox, ps: seq<Point>): (r: BoundingBox)
    ensures Proper(b) ==> Proper(r)
    decreases |ps|
  {
    if |ps| == 0 then b else EncloseAll(Enclose(b, ps[0]), ps[1..])
  }

  /** The transformed box is the box of the four corner images. */
  lemma ApplyTransformOf4(b: BoundingBox, t: Transform)
    ensures ApplyTransform(b, t)
            == Of4(ApplyToPoint(b.tl, t), ApplyToPoint(Tr(b), t), ApplyToPoint(Bl(b), t), ApplyToPoint(b.br, t))
  {
    var tl := ApplyToPoint(b.tl, t);
    var ps := [ApplyToPoint(Tr(b), t), ApplyToPoint(Bl(b), t), ApplyToPoint(b.br, t)];
    assert ps[1..][1..][1..] == [];
    var r0 := BoundingBox(tl, tl);
    calc {
      EncloseAll(r0, ps);
      EncloseAll(Enclose(r0, ps[0]), ps[1..]);
      EncloseAll(Enclose(Enclose(r0, ps[0]), ps[1]), ps[1..][1..]);
      EncloseAll(Enclose(Enclose(Enclose(r0, ps[0]), ps[1]), ps[2]), ps[1..][1..][1..]);
    }
  }

  /** The transformed box contains the images of the four corners, and every
      box that contains them contains it. */
  lemma ApplyTransformTight(b: BoundingBox, t: Transform)
    ensures var r := ApplyTransform(b, t);
            Contains(r, ApplyToPoint(b.tl, t)) && Contains(r, ApplyToPoint(Tr(b), t)) &&
            Contains(r, ApplyToPoint(Bl(b), t)) && Contains(r, ApplyToPoint(b.br, t))
    ensures forall c ::
              Contains(c, ApplyToPoint(b.tl, t)) && Contains(c, ApplyToPoint(Tr(b), t)) &&
              Contains(c, ApplyToPoint(Bl(b), t)) && Contains(c, ApplyToPoint(b.br, t))
              ==> Within(ApplyTransform(b, t), c)
  {
    ApplyTransformOf4(b, t);
    var p0, p1, p2, p3 := ApplyToPoint(b.tl, t), ApplyToPoint(Tr(b), t), ApplyToPoint(Bl(b), t), ApplyToPoint(b.br, t);
    forall c | Contains(c, p0) && Contains(c, p1) && Contains(c, p2) && Contains(c, p3)
      ensures Within(ApplyTransform(b, t), c)
    {
      var r0 := BoundingBox(p0, p0);
      EncloseLeast(r0, p1, c);
      EncloseLeast(Enclose(r0, p1), p2, c);
      EncloseLeast(Enclose(Enclose(r0, p1), p2), p3, c);
    }
  }

  /** The box of a transformed box depends only on the matrix. */
  lemma ApplyCongruent(b: BoundingBox, t1: Transform, t2: Transform)
    requires MatrixOf(t1) == MatrixOf(t2)
    ensures ApplyTransform(b, t1) == ApplyTransform(b, t2)
  {
    assert ApplyToPoint(b.tl, t1) == ApplyToPoint(b.tl, t2);
    assert ApplyToPoint(Tr(b), t1) == ApplyToPoint(Tr(b), t2);
    assert ApplyToPoint(Bl(b), t1) == ApplyToPoint(Bl(b), t2);
    assert ApplyToPoint(b.br, t1) == ApplyToPoint(b.br, t2);
  }

  /** The identity transform puts a box right side out and changes nothing
      else: it returns `b` exactly when `b` is proper. */
  lemma ApplyIdentity(b: BoundingBox)
    ensures ApplyTransform(b, Identity) == Normalize(b)
    ensures ApplyTransform(b, Identity) == b <==> Proper(b)
  {
    ApplyTransformOf4(b, Identity);
    ApplyToPointMeaning(b.tl, Identity);
    ApplyToPointMeaning(Tr(b), Identity);
    ApplyToPointMeaning(Bl(b), Identity);
    ApplyToPointMeaning(b.br, Identity);
  }

  /** A translation moves the (normalized) box by the translation vector. */
  lemma ApplyTranslate(b: BoundingBox, dx: real, dy: real)
    ensures ApplyTransform(b, Translate(dx, dy)) == Shift(Normalize(b), Vector(dx, dy))
  {
    var t := Translate(dx, dy);
    ApplyTransformOf4(b, t);
    ApplyToPointMeaning(b.tl, t);
    ApplyToPointMeaning(Tr(b), t);
    ApplyToPointMeaning(Bl(b), t);
    ApplyToPointMeaning(b.br, t);
  }

  /** Enclosing a shifted point in a shifted box is the shifted enclosure. */
  lemma EncloseShift(b: BoundingBox, p: Point, v: Vector)
    ensures Enclose(Shift(b, v), Add(p, v)) == Shift(Enclose(b, p), v)
  {
  }

  /** A point transformed by `x` and then translated is the transformed
      point displaced by the translation vector. */
  lemma PointThenTranslate(p: Point, x: Transform, dx: real, dy: real)
    ensures ApplyToPoint(p, Compose(Translate(dx, dy), x)) == Add(ApplyToPoint(p, x), Vector(dx, dy))
  {
    ApplyToPointMeaning(p, Compose(Translate(dx, dy), x));
    ApplyToPointMeaning(ApplyToPoint(p, x), Translate(dx, dy));
  }

  /** The box of four points, enclosed in order. */
  function Of4(p0: Point, p1: Point, p2: Point, p3: Point): BoundingBox {
    Enclose(Enclose(Enclose(BoundingBox(p0, p0), p1), p2), p3)
  }

  /** Moving four points by `v` moves their box by `v`. */
  lemma Of4Shift(p0: Point, p1: Point, p2: Point, p3: Point, v: Vector)
    ensures Of4(Add(p0, v), Add(p1, v), Add(p2, v), Add(p3, v)) == Shift(Of4(p0, p1, p2, p3), v)
  {
    var r0 := BoundingBox(p0, p0);
    assert BoundingBox(Add(p0, v), Add(p0, v)) == Shift(r0, v);
    EncloseShift(r0, p1, v);
    EncloseShift(Enclose(r0, p1), p2, v);
    EncloseShift(Enclose(Enclose(r0, p1), p2), p3, v);
  }

  /** Translating after any transform moves the transformed box by the
      translation vector. */
  lemma ApplyThenTranslate(b: BoundingBox, x: Transform, dx: real, dy: real)
    ensures ApplyTransform(b, Compose(Translate(dx, dy), x)) == Shift(ApplyTransform(b, x), Vector(dx, dy))
  {
    var v := Vector(dx, dy);
    ApplyTransformOf4(b, x);
    ApplyTransformOf4(b, Compose(Translate(dx, dy), x));
    PointThenTranslate(b.tl, x, dx, dy);
    PointThenTranslate(Tr(b), x, dx, dy);
    PointThenTranslate(Bl(b), x, dx, dy);
    PointThenTranslate(b.br, x, dx, dy);
    Of4Shift(ApplyToPoint(b.tl, x), ApplyToPoint(Tr(b), x), ApplyToPoint(Bl(b), x), ApplyToPoint(b.br, x), v);
  }
}
