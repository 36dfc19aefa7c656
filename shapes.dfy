/** Shapes and their local bounding boxes (chalk/shape.py).

    A shape is drawn around its own origin; the diagram that holds it places
    it with a transform. Only the shapes whose box the library computes
    itself are modelled: circles, rectangles, spacers and point paths.
 */
module Shapes {

  import opened Wrappers
  import opened Points
  import opened Transforms
  import opened BoundingBoxes

  datatype Shape =
    | Circle(radius: real)
    | Rectangle(width: real, height: real, cornerRadius: Option<real>)
    | Path(points: seq<Point>, arrow: bool)
    | Spacer(width: real, height: real)

  /** The box centred on the origin with the given width and height, built
      as Rectangle and Spacer build it: the left and top edges at minus half
      the size, the other two at those edges plus the size. */
  function CenteredBox(width: real, height: real): BoundingBox {
    var left := ORIGIN.x - width / 2.0;
    var top := ORIGIN.y - height / 2.0;
    BoundingBox(Point(left, top), Point(left + width, top + height))
  }

  // Path.get_bounding_box

  /** The box `b` after enclosing the points of `ps` one by one, first to last. */
  function PointsFold(b: BoundingBox, ps: seq<Point>): BoundingBox
    decreases |ps|
  {
    if |ps| == 0 then b else Enclose(PointsFold(b, ps[..|ps| - 1]), ps[|ps| - 1])
  }

  /** The box of a point path: the point box at the first point, enlarged by
      every point in turn; a path without points has no first point. */
  function PointsBox(ps: seq<Point>): (r: Result<BoundingBox>)
    ensures r.Err? <==> |ps| == 0
    ensures r.Err? ==> r.error == EmptyPath
  {
    if |ps| == 0 then Err(EmptyPath) else Ok(PointsFold(BoundingBox(ps[0], ps[0]), ps))
  }

  /** `Path.get_bounding_box`: the loop that encloses each point in turn. */
  method PathBoundingBox(points: seq<Point>) returns (r: Result<BoundingBox>)
    ensures r == PointsBox(points)
  {
    if |points| == 0 {
      return Err(EmptyPath);
    }
    var box := BoundingBox(points[0], points[0]);
    ghost var init := box;
    var i := 0;
    while i < |points|
      invariant 0 <= i <= |points|
      invariant box == PointsFold(init, points[..i])
    {
      assert points[..i + 1][..i] == points[..i];
      box := Enclose(box, points[i]);
      i := i + 1;
    }
    assert points[..i] == points;
    return Ok(box);
  }

  /** The folded box covers the starting box, contains every point, stays
      proper, and is the least box that does all that. */
  lemma {:induction false} PointsFoldCovers(b: BoundingBox, ps: seq<Point>)
    ensures Within(b, PointsFold(b, ps))
    ensures forall i :: 0 <= i < |ps| ==> Contains(PointsFold(b, ps), ps[i])
    ensures Proper(b) ==> Proper(PointsFold(b, ps))
    decreases |ps|
  {
    if |ps| > 0 {
      var init := ps[..|ps| - 1];
      PointsFoldCovers(b, init);
      var f := PointsFold(b, init);
      var r := Enclose(f, ps[|ps| - 1]);
      forall i | 0 <= i < |ps|
        ensures Contains(r, ps[i])
      {
        if i < |ps| - 1 {
          assert ps[i] == init[i];
          WithinContains(f, r, ps[i]);
        }
      }
    }
  }

  /** Any box that covers `b` and contains every point covers the fold. */
  lemma {:induction false} PointsFoldLeast(b: BoundingBox, ps: seq<Point>, c: BoundingBox)
    requires Within(b, c)
    requires forall i :: 0 <= i < |ps| ==> Contains(c, ps[i])
    ensures Within(PointsFold(b, ps), c)
    decreases |ps|
  {
    if |ps| > 0 {
      var init := ps[..|ps| - 1];
      forall i | 0 <= i < |init|
        ensures Contains(c, init[i])
      {
        assert init[i] == ps[i];
      }
      PointsFoldLeast(b, init, c);
    }
  }

  /** Each edge of the fold is the starting box's edge or some point's
      coordinate. */
  lemma {:induction false} PointsFoldAttained(b: BoundingBox, ps: seq<Point>)
    ensures Left(PointsFold(b, ps)) == Left(b) || exists i :: 0 <= i < |ps| && ps[i].x == Left(PointsFold(b, ps))
    ensures Top(PointsFold(b, ps)) == Top(b) || exists i :: 0 <= i < |ps| && ps[i].y == Top(PointsFold(b, ps))
    ensures Right(PointsFold(b, ps)) == Right(b) || exists i :: 0 <= i < |ps| && ps[i].x == Right(PointsFold(b, ps))
    ensures Bottom(PointsFold(b, ps)) == Bottom(b) || exists i :: 0 <= i < |ps| && ps[i].y == Bottom(PointsFold(b, ps))
    decreases |ps|
  {
    if |ps| > 0 {
      var n := |ps| - 1;
      var init := ps[..n];
      PointsFoldAttained(b, init);
      forall i | 0 <= i < n
        ensures init[i] == ps[i]
      {
      }
    }
  }

  /** A path's box contains every point of the path and is the least box that
      does; each edge is the coordinate of some point. */
  lemma PointsBoxTight(ps: seq<Point>)
    requires |ps| > 0
    ensures Proper(PointsBox(ps).value)
    ensures forall i :: 0 <= i < |ps| ==> Contains(PointsBox(ps).value, ps[i])
    ensures forall c :: (forall i :: 0 <= i < |ps| ==> Contains(c, ps[i])) ==> Within(PointsBox(ps).value, c)
    ensures exists i :: 0 <= i < |ps| && ps[i].x == Left(PointsBox(ps).value)
    ensures exists i :: 0 <= i < |ps| && ps[i].y == Top(PointsBox(ps).value)
    ensures exists i :: 0 <= i < |ps| && ps[i].x == Right(PointsBox(ps).value)
    ensures exists i :: 0 <= i < |ps| && ps[i].y == Bottom(PointsBox(ps).value)
  {
    var b := BoundingBox(ps[0], ps[0]);
    PointsFoldCovers(b, ps);
    PointsFoldAttained(b, ps);
    forall c | forall i :: 0 <= i < |ps| ==> Contains(c, ps[i])
      ensures Within(PointsBox(ps).value, c)
    {
      assert Contains(c, ps[0]);
      PointsFoldLeast(b, ps, c);
    }
  }

  /** A path's points, each moved by `v`. */
  function ShiftPoints(ps: seq<Point>, v: Vector): (r: seq<Point>)
    ensures |r| == |ps|
    ensures forall i :: 0 <= i < |ps| ==> r[i] == Add(ps[i], v)
  {
    seq(|ps|, i requires 0 <= i < |ps| => Add(ps[i], v))
  }

  lemma {:induction false} PointsFoldShift(b: BoundingBox, ps: seq<Point>, v: Vector)
    ensures PointsFold(Shift(b, v), ShiftPoints(ps, v)) == Shift(PointsFold(b, ps), v)
    decreases |ps|
  {
    if |ps| > 0 {
      var n := |ps| - 1;
      assert ShiftPoints(ps, v)[..n] == ShiftPoints(ps[..n], v);
      PointsFoldShift(b, ps[..n], v);
      EncloseShift(PointsFold(b, ps[..n]), ps[n], v);
    }
  }

  /** Moving every point of a path by `v` moves its box by `v`. */
  lemma PointsBoxShift(ps: seq<Point>, v: Vector)
    requires |ps| > 0
    ensures PointsBox(ShiftPoints(ps, v)) == Ok(Shift(PointsBox(ps).value, v))
  {
    PointsFoldShift(BoundingBox(ps[0], ps[0]), ps, v);
  }

  /** `get_bounding_box` of each shape. Only a path with no points fails. */
  function ShapeBox(s: Shape): (r: Result<BoundingBox>)
    ensures r.Err? <==> s.Path? && |s.points| == 0
    ensures r.Err? ==> r.error == EmptyPath
  {
    match s
    case Circle(radius) => Ok(BoundingBox(Point(-radius, -radius), Point(radius, radius)))
    case Rectangle(w, h, _) => Ok(CenteredBox(w, h))
    case Spacer(w, h) => Ok(CenteredBox(w, h))
    case Path(ps, _) => PointsBox(ps)
  }

  /** A circle's box runs from `(-r, -r)` to `(r, r)`; rectangles and spacers
      are centred on the origin with their own width and height; these boxes
      are proper exactly when the sizes are not negative. */
  lemma ShapeBoxGeometry(s: Shape)
    ensures s.Circle? ==> ShapeBox(s) == Ok(FromLimits(-s.radius, -s.radius, s.radius, s.radius))
    ensures s.Circle? ==> Center(ShapeBox(s).value) == ORIGIN && Width(ShapeBox(s).value) == 2.0 * s.radius
    ensures s.Circle? ==> (Proper(ShapeBox(s).value) <==> s.radius >= 0.0)
    ensures (s.Rectangle? || s.Spacer?) ==>
              Center(ShapeBox(s).value) == ORIGIN &&
              Width(ShapeBox(s).value) == s.width && Height(ShapeBox(s).value) == s.height &&
              Left(ShapeBox(s).value) == -s.width / 2.0 && Top(ShapeBox(s).value) == -s.height / 2.0
    ensures (s.Rectangle? || s.Spacer?) ==>
              (Proper(ShapeBox(s).value) <==> s.width >= 0.0 && s.height >= 0.0)
  {
  }

  // Path constructors and transforms

  /** `Path.from_list_of_tuples(coords, arrow)`: one point per pair, in order. */
  function FromListOfTuples(coords: seq<(real, real)>, arrow: bool): (r: Shape)
    ensures r.Path? && r.arrow == arrow && |r.points| == |coords|
    ensures forall i :: 0 <= i < |coords| ==> r.points[i].x == coords[i].0 && r.points[i].y == coords[i].1
  {
    Path(seq(|coords|, i requires 0 <= i < |coords| => Point(coords[i].0, coords[i].1)), arrow)
  }

  /** A path's points as coordinate pairs. */
  function ToTuples(ps: seq<Point>): (r: seq<(real, real)>)
    ensures |r| == |ps|
  {
    seq(|ps|, i requires 0 <= i < |ps| => (ps[i].x, ps[i].y))
  }

  /** Building a path from pairs and reading the pairs back are inverse. */
  lemma TuplesRoundTrip(coords: seq<(real, real)>, ps: seq<Point>, arrow: bool)
    ensures ToTuples(FromListOfTuples(coords, arrow).points) == coords
    ensures FromListOfTuples(ToTuples(ps), arrow) == Path(ps, arrow)
  {
    var r := ToTuples(FromListOfTuples(coords, arrow).points);
    assert forall i | 0 <= i < |coords| :: r[i] == coords[i];
    var q := FromListOfTuples(ToTuples(ps), arrow).points;
    assert forall i | 0 <= i < |ps| :: q[i] == ps[i];
  }

  /** `Path.hrule(length)`. */
  function Hrule(length: real): Shape {
    FromListOfTuples([(-length / 2.0, 0.0), (length / 2.0, 0.0)], false)
  }

  /** `Path.vrule(length)`. */
  function Vrule(length: real): Shape {
    FromListOfTuples([(0.0, -length / 2.0), (0.0, length / 2.0)], false)
  }

  function Abs(a: real): real {
    if a < 0.0 then -a else a
  }

  /** Folding two points encloses the first, then the second. */
  lemma PointsFoldPair(b: BoundingBox, p: Point, q: Point)
    ensures PointsFold(b, [p, q]) == Enclose(Enclose(b, p), q)
  {
    assert [p, q][..1] == [p] && [p][..0] == [];
    assert PointsFold(b, [p]) == Enclose(PointsFold(b, []), p);
  }

  /** A horizontal rule is two points at minus and plus half the length on
      the x axis, its box is centred on the origin, as wide as the rule is
      long and of no height; the vertical rule is the same turned. */
  lemma RulesGeometry(length: real)
    ensures Hrule(length) == Path([Point(-length / 2.0, 0.0), Point(length / 2.0, 0.0)], false)
    ensures Vrule(length) == Path([Point(0.0, -length / 2.0), Point(0.0, length / 2.0)], false)
    ensures ShapeBox(Hrule(length)).Ok? && ShapeBox(Vrule(length)).Ok?
    ensures Center(ShapeBox(Hrule(length)).value) == ORIGIN
    ensures Width(ShapeBox(Hrule(length)).value) == Abs(length) && Height(ShapeBox(Hrule(length)).value) == 0.0
    ensures Center(ShapeBox(Vrule(length)).value) == ORIGIN
    ensures Width(ShapeBox(Vrule(length)).value) == 0.0 && Height(ShapeBox(Vrule(length)).value) == Abs(length)
  {
    var h := Hrule(length).points;
    PointsFoldPair(BoundingBox(h[0], h[0]), h[0], h[1]);
    assert h == [h[0], h[1]];
    var v := Vrule(length).points;
    PointsFoldPair(BoundingBox(v[0], v[0]), v[0], v[1]);
    assert v == [v[0], v[1]];
  }

  /** `Path.apply_transform(t)`: every point mapped, in order; the new path is
      built without the arrow flag, so it is always False. */
  function TransformPath(ps: seq<Point>, t: Transform): (r: Shape)
    ensures r.Path? && !r.arrow && |r.points| == |ps|
  {
    Path(seq(|ps|, i requires 0 <= i < |ps| => ApplyToPoint(ps[i], t)), false)
  }

  /** Each point of the transformed path is the image of the point at the
      same place; transforming by `u` and then by `t` is transforming by
      `Compose(t, u)`; the identity keeps the points and drops the arrow. */
  lemma TransformPathLaws(ps: seq<Point>, t: Transform, u: Transform)
    ensures forall i :: 0 <= i < |ps| ==> TransformPath(ps, t).points[i] == ApplyToPoint(ps[i], t)
    ensures TransformPath(TransformPath(ps, u).points, t) == TransformPath(ps, Compose(t, u))
    ensures TransformPath(ps, Identity) == Path(ps, false)
  {
    var a := TransformPath(TransformPath(ps, u).points, t).points;
    var b := TransformPath(ps, Compose(t, u)).points;
    forall i | 0 <= i < |ps|
      ensures a[i] == b[i]
    {
      ApplyToPointMeaning(ps[i], Compose(t, u));
    }
    var c := TransformPath(ps, Identity).points;
    forall i | 0 <= i < |ps|
      ensures c[i] == ps[i]
    {
      ApplyToPointMeaning(ps[i], Identity);
    }
  }

  /** The transformed path's box contains the image of every point. */
  lemma TransformPathBox(ps: seq<Point>, t: Transform)
    requires |ps| > 0
    ensures ShapeBox(TransformPath(ps, t)).Ok?
    ensures forall i :: 0 <= i < |ps| ==> Contains(ShapeBox(TransformPath(ps, t)).value, ApplyToPoint(ps[i], t))
  {
    var q := TransformPath(ps, t).points;
    PointsBoxTight(q);
    forall i | 0 <= i < |ps|
      ensures Contains(ShapeBox(TransformPath(ps, t)).value, ApplyToPoint(ps[i], t))
    {
      assert q[i] == ApplyToPoint(ps[i], t);
    }
  }

  /** A translated path's box is the path's box moved by the translation. */
  lemma TranslatePathBox(ps: seq<Point>, dx: real, dy: real)
    requires |ps| > 0
    ensures ShapeBox(TransformPath(ps, Translate(dx, dy))) == Ok(Shift(ShapeBox(Path(ps, false)).value, Vector(dx, dy)))
  {
    var q := TransformPath(ps, Translate(dx, dy)).points;
    forall i | 0 <= i < |ps|
      ensures q[i] == ShiftPoints(ps, Vector(dx, dy))[i]
    {
      ApplyToPointMeaning(ps[i], Translate(dx, dy));
    }
    assert q == ShiftPoints(ps, Vector(dx, dy));
    PointsBoxShift(ps, Vector(dx, dy));
  }

  // Path.polygon

  /** The angle of vertex `s` of a polygon with `sides` sides; `sides` is not 0. */
  function PolygonAngle(s: int, sides: int, rotation: real): real
    requires sides != 0
  {
    2.0 * PI * (s as real) / (sides as real) + (PI / 2.0 * (sides as real)) + rotation
  }

  /** Vertex `s` of the polygon; `cos` and `sin` are those of `math`. */
  function PolygonVertex(s: int, sides: int, radius: real, rotation: real,
                         cos: real -> real, sin: real -> real): (real, real)
    requires sides != 0
  {
    (radius * cos(PolygonAngle(s, sides, rotation)), radius * sin(PolygonAngle(s, sides, rotation)))
  }

  /** The vertices for `s` in `range(k)`. */
  function PolygonPrefix(k: nat, sides: int, radius: real, rotation: real,
                         cos: real -> real, sin: real -> real): (r: seq<(real, real)>)
    requires sides != 0
    ensures |r| == k
    ensures forall s :: 0 <= s < k ==> r[s] == PolygonVertex(s, sides, radius, rotation, cos, sin)
  {
    if k == 0 then []
    else PolygonPrefix(k - 1, sides, radius, rotation, cos, sin) + [PolygonVertex(k - 1, sides, radius, rotation, cos, sin)]
  }

  /** The coordinates `polygon` appends, one per `s` in `range(sides + 1)`. */
  function PolygonCoords(sides: int, radius: real, rotation: real, cos: real -> real, sin: real -> real): seq<(real, real)>
    requires sides != 0
  {
    PolygonPrefix(if sides < 0 then 0 else sides + 1, sides, radius, rotation, cos, sin)
  }

  /** `Path.polygon(sides, radius, rotation)`. With no sides, the first angle
      divides by zero; with fewer, `range` is empty and so is the path. */
  method Polygon(sides: int, radius: real, rotation: real, cos: real -> real, sin: real -> real)
    returns (r: Result<Shape>)
    ensures sides == 0 ==> r == Err(DivisionByZero)
    ensures sides != 0 ==> r == Ok(FromListOfTuples(PolygonCoords(sides, radius, rotation, cos, sin), false))
  {
    var coords: seq<(real, real)> := [];
    var n := sides + 1;
    if n > 0 && sides == 0 {
      return Err(DivisionByZero);
    }
    var s := 0;
    while s < n
      invariant sides != 0 && 0 <= s <= (if n < 0 then 0 else n)
      invariant coords == PolygonPrefix(s, sides, radius, rotation, cos, sin)
    {
      var t := PolygonAngle(s, sides, rotation);
      ghost var v := PolygonVertex(s, sides, radius, rotation, cos, sin);
      assert v.0 == radius * cos(t) && v.1 == radius * sin(t);
      coords := coords + [(radius * cos(t), radius * sin(t))];
      s := s + 1;
    }
    r := Ok(FromListOfTuples(coords, false));
  }

  /** A polygon with `n > 0` sides has `n + 1` points, and, when `cos` and
      `sin` have period `2 * pi`, the last point is the first, so the outline
      closes. A negative side count gives no points. */
  lemma PolygonShape(sides: int, radius: real, rotation: real, cos: real -> real, sin: real -> real)
    requires sides != 0
    ensures sides > 0 ==> |FromListOfTuples(PolygonCoords(sides, radius, rotation, cos, sin), false).points| == sides + 1
    ensures sides < 0 ==> FromListOfTuples(PolygonCoords(sides, radius, rotation, cos, sin), false).points == []
    ensures sides > 0 && (forall a :: cos(a + 2.0 * PI) == cos(a)) && (forall a :: sin(a + 2.0 * PI) == sin(a)) ==>
              var ps := FromListOfTuples(PolygonCoords(sides, radius, rotation, cos, sin), false).points;
              ps[sides] == ps[0]
  {
    if sides > 0 {
      var k := sides as real;
      assert 2.0 * PI * k / k == 2.0 * PI;
      assert PolygonAngle(sides, sides, rotation) == PolygonAngle(0, sides, rotation) + 2.0 * PI;
    }
  }

  /** `Path.regular_polygon(sides, side_length)`: the polygon whose radius
      makes each side `side_length` long. `pi / sides` divides by zero when
      there are no sides, and so does the radius when `2 * sin(pi / sides)`
      is zero. */
  method RegularPolygon(sides: int, sideLength: real, cos: real -> real, sin: real -> real)
    returns (r: Result<Shape>)
    ensures sides == 0 || sin(PI / (sides as real)) == 0.0 ==> r == Err(DivisionByZero)
    ensures sides != 0 && sin(PI / (sides as real)) != 0.0 ==>
              r == Ok(FromListOfTuples(PolygonCoords(sides, sideLength / (2.0 * sin(PI / (sides as real))), 0.0, cos, sin), false))
  {
    if sides == 0 {
      return Err(DivisionByZero);
    }
    var denominator := 2.0 * sin(PI / (sides as real));
    if denominator == 0.0 {
      return Err(DivisionByZero);
    }
    r := Polygon(sides, sideLength / denominator, 0.0, cos, sin);
  }
}
