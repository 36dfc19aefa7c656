/** Segment paths (chalk/shapes/path.py).

    In this representation a path is a list of straight segments, each from
    a point `p` to a point `q`. A path built from a point list joins
    consecutive points, so the segments of such a path meet end to start,
    and `points()` reads that list back.

    A segment's own `apply_transform` is defined outside this file, so it
    is a parameter here.
 */
module SegmentPaths {

  import opened Wrappers
  import opened Points
  import Tr = Transforms
  import Sh = Shapes

  datatype Segment = Segment(p: Point, q: Point)

  datatype Path = Path(segments: seq<Segment>)

  // constructors

  /** `Path.from_point(point)`: a single segment that starts and ends at
      the point. */
  function FromPoint(point: Point): Path {
    Path([Segment(point, point)])
  }

  /** `Path.from_points(points)`: a segment from each point to the next,
      none for fewer than two points. */
  function FromPoints(points: seq<Point>): (r: Path)
    ensures |r.segments| == if |points| == 0 then 0 else |points| - 1
    ensures forall i :: 0 <= i < |r.segments| ==> r.segments[i] == Segment(points[i], points[i + 1])
    decreases |points|
  {
    if |points| < 2 then Path([])
    else Path([Segment(points[0], points[1])] + FromPoints(points[1..]).segments)
  }

  /** `Path.from_pairs(points)`: one segment per pair, in order. */
  function FromPairs(pairs: seq<(Point, Point)>): (r: Path)
    ensures |r.segments| == |pairs|
    decreases |pairs|
  {
    if |pairs| == 0 then Path([])
    else Path([Segment(pairs[0].0, pairs[0].1)] + FromPairs(pairs[1..]).segments)
  }

  /** The pairs of end points of a path's segments. */
  function Pairs(path: Path): (r: seq<(Point, Point)>)
    ensures |r| == |path.segments|
  {
    seq(|path.segments|, i requires 0 <= i < |path.segments| => (path.segments[i].p, path.segments[i].q))
  }

  /** Segment `i` of `from_pairs` joins the two points of pair `i`, so
      reading the pairs back gives the input. */
  lemma {:induction false} FromPairsRoundTrip(pairs: seq<(Point, Point)>)
    ensures forall i :: 0 <= i < |pairs| ==>
              FromPairs(pairs).segments[i] == Segment(pairs[i].0, pairs[i].1)
    ensures Pairs(FromPairs(pairs)) == pairs
    decreases |pairs|
  {
    if |pairs| > 0 {
      FromPairsRoundTrip(pairs[1..]);
      var s := FromPairs(pairs).segments;
      forall i | 0 <= i < |pairs|
        ensures s[i] == Segment(pairs[i].0, pairs[i].1)
      {
        if i > 0 {
          assert s[i] == FromPairs(pairs[1..]).segments[i - 1];
        }
      }
    }
  }

  /** `Path.from_list_of_tuples(coords)`: the points of the pairs, joined
      in order. */
  function FromListOfTuples(coords: seq<(real, real)>): Path {
    FromPoints(Sh.FromListOfTuples(coords, false).points)
  }

  // points

  /** The end points `q` of the segments, in order. */
  function Ends(segments: seq<Segment>): (r: seq<Point>)
    ensures |r| == |segments|
    ensures forall i :: 0 <= i < |segments| ==> r[i] == segments[i].q
    decreases |segments|
  {
    if |segments| == 0 then []
    else Ends(segments[..|segments| - 1]) + [segments[|segments| - 1].q]
  }

  /** What `points()` lists: the start of the first segment, then the end
      of every segment; nothing for a path without segments. */
  function PointsOf(path: Path): seq<Point> {
    if |path.segments| == 0 then [] else [path.segments[0].p] + Ends(path.segments)
  }

  /** `Path.points()`: the loop that appends the first segment's start and
      every segment's end. */
  method PathPoints(path: Path) returns (points: seq<Point>)
    ensures points == PointsOf(path)
  {
    var segments := path.segments;
    points := [];
    var i := 0;
    while i < |segments|
      invariant 0 <= i <= |segments|
      invariant points == if i == 0 then [] else [segments[0].p] + Ends(segments[..i])
    {
      var seg := segments[i];
      if i == 0 {
        points := points + [seg.p];
      }
      assert segments[..i + 1][..i] == segments[..i];
      points := points + [seg.q];
      i := i + 1;
    }
    assert segments[..i] == segments;
  }

  /** A path with segments lists one point more than it has segments: the
      first start, then point `i + 1` is the end of segment `i`. */
  lemma PointsOfShape(path: Path)
    ensures |path.segments| == 0 ==> PointsOf(path) == []
    ensures |path.segments| > 0 ==>
              |PointsOf(path)| == |path.segments| + 1 && PointsOf(path)[0] == path.segments[0].p
    ensures forall i :: 0 <= i < |path.segments| ==> PointsOf(path)[i + 1] == path.segments[i].q
  {
    if |path.segments| > 0 {
      var ends := Ends(path.segments);
      assert PointsOf(path) == [path.segments[0].p] + ends;
      assert forall i :: 0 <= i < |path.segments| ==> PointsOf(path)[i + 1] == ends[i];
    }
  }

  /** Segments that join consecutive points list those points again. */
  lemma JoinedPoints(segments: seq<Segment>, points: seq<Point>)
    requires |points| >= 2 && |segments| == |points| - 1
    requires forall i :: 0 <= i < |segments| ==> segments[i] == Segment(points[i], points[i + 1])
    ensures PointsOf(Path(segments)) == points
  {
    var r := PointsOf(Path(segments));
    var ends := Ends(segments);
    assert r == [segments[0].p] + ends;
    forall i | 0 <= i < |points|
      ensures r[i] == points[i]
    {
      if i > 0 {
        assert r[i] == ends[i - 1];
        assert segments[i - 1] == Segment(points[i - 1], points[i]);
      } else {
        assert segments[0] == Segment(points[0], points[1]);
      }
    }
  }

  /** `from_points(pts).points() == pts` for every list of at least two
      points. */
  lemma PointsRoundTrip(points: seq<Point>)
    requires |points| >= 2
    ensures PointsOf(FromPoints(points)) == points
  {
    JoinedPoints(FromPoints(points).segments, points);
  }

  /** With fewer than two points there is no segment, so `points()` is
      empty and a single point is lost. */
  lemma FewPoints(points: seq<Point>)
    requires |points| < 2
    ensures FromPoints(points).segments == [] && PointsOf(FromPoints(points)) == []
  {
  }

  /** `from_point(p)` is one degenerate segment, and `points()` gives
      `[p, p]`. */
  lemma FromPointPoints(point: Point)
    ensures |FromPoint(point).segments| == 1
    ensures PointsOf(FromPoint(point)) == [point, point]
  {
    assert Ends(FromPoint(point).segments) == [point];
  }

  // rules and rectangles

  /** `Path.hrule(length)`. */
  function Hrule(length: real): Path {
    FromListOfTuples([(-length / 2.0, 0.0), (length / 2.0, 0.0)])
  }

  /** `Path.vrule(length)`. */
  function Vrule(length: real): Path {
    FromListOfTuples([(0.0, -length / 2.0), (0.0, length / 2.0)])
  }

  /** Each rule is one segment of the given length, symmetric about the
      origin, along its axis. */
  lemma RuleSegments(length: real)
    ensures Hrule(length).segments == [Segment(Point(-length / 2.0, 0.0), Point(length / 2.0, 0.0))]
    ensures Vrule(length).segments == [Segment(Point(0.0, -length / 2.0), Point(0.0, length / 2.0))]
  {
  }

  /** `Path.rectangle(width, height)`: the corners from the top left, round
      to the top left again. */
  function Rectangle(width: real, height: real): Path {
    var x := width / 2.0;
    var y := height / 2.0;
    FromListOfTuples([(-x, y), (x, y), (x, -y), (-x, -y), (-x, y)])
  }

  // apply_transform

  /** `Path.apply_transform(t)`, with the segments' own transform as `f`. */
  function ApplyTransform(path: Path, f: Segment -> Segment): (r: Path)
    ensures |r.segments| == |path.segments|
  {
    Path(seq(|path.segments|, i requires 0 <= i < |path.segments| => f(path.segments[i])))
  }

  /** Transforming keeps the segments in order, each transformed on its
      own; two transforms in turn are one transform by their composition. */
  lemma ApplyTransformLaws(path: Path, f: Segment -> Segment, g: Segment -> Segment)
    ensures forall i :: 0 <= i < |path.segments| ==>
              ApplyTransform(path, f).segments[i] == f(path.segments[i])
    ensures ApplyTransform(ApplyTransform(path, f), g) == ApplyTransform(path, s => g(f(s)))
  {
  }

  /** The points of a transformed path are the transformed points, when
      each segment is transformed by mapping its two ends. */
  lemma ApplyTransformPoints(path: Path, f: Segment -> Segment, m: Point -> Point)
    requires forall s :: f(s) == Segment(m(s.p), m(s.q))
    ensures |PointsOf(ApplyTransform(path, f))| == |PointsOf(path)|
    ensures forall i :: 0 <= i < |PointsOf(path)| ==> PointsOf(ApplyTransform(path, f))[i] == m(PointsOf(path)[i])
  {
    PointsCount(path);
    PointsCount(ApplyTransform(path, f));
    forall i | 0 <= i < |PointsOf(path)|
      ensures PointsOf(ApplyTransform(path, f))[i] == m(PointsOf(path)[i])
    {
      PointMoved(path, f, m, i);
    }
  }

  lemma PointsCount(path: Path)
    ensures |PointsOf(path)| == if |path.segments| == 0 then 0 else |path.segments| + 1
  {
  }

  lemma PointMoved(path: Path, f: Segment -> Segment, m: Point -> Point, i: int)
    requires forall s :: f(s) == Segment(m(s.p), m(s.q))
    requires 0 <= i < |PointsOf(path)|
    ensures i < |PointsOf(ApplyTransform(path, f))|
    ensures PointsOf(ApplyTransform(path, f))[i] == m(PointsOf(path)[i])
  {
    var moved := ApplyTransform(path, f);
    PointsOfShape(path);
    PointsOfShape(moved);
    if i == 0 {
      assert moved.segments[0] == f(path.segments[0]);
    } else {
      assert PointsOf(path)[i] == path.segments[i - 1].q;
      assert PointsOf(moved)[i] == moved.segments[i - 1].q;
      assert moved.segments[i - 1] == f(path.segments[i - 1]);
    }
  }

  // is_closed

  function SquaredLength(v: Vector): real {
    v.dx * v.dx + v.dy * v.dy
  }

  /** `diff.length < 1e-3` for a length `l >= 0` whose square is the
      squared length: the same as the squared length below `1e-6`. */
  lemma LengthThreshold(v: Vector, l: real)
    requires l >= 0.0 && l * l == SquaredLength(v)
    ensures l < 0.001 <==> SquaredLength(v) < 0.000001
  {
    if l < 0.001 {
      assert l * l <= l * 0.001;
      assert l * 0.001 < 0.001 * 0.001;
    } else {
      assert l * l >= 0.001 * l;
      assert 0.001 * l >= 0.001 * 0.001;
    }
  }

  /** `Path.is_closed()`: there is a segment, and the start of the first
      lies within `1e-3` of the end of the last. */
  predicate IsClosed(path: Path) {
    |path.segments| > 0
    && SquaredLength(Diff(path.segments[0].p, path.segments[|path.segments| - 1].q)) < 0.000001
  }

  /** A path from points is closed exactly when it has at least two points
      and the last lies within `1e-3` of the first; its closing gap is the
      one between the first and last point it lists. */
  lemma IsClosedFromPoints(points: seq<Point>)
    ensures IsClosed(FromPoints(points)) <==>
              |points| >= 2 && SquaredLength(Diff(points[0], points[|points| - 1])) < 0.000001
  {
    var segs := FromPoints(points).segments;
    if |points| >= 2 {
      assert segs[0] == Segment(points[0], points[1]);
      assert segs[|segs| - 1] == Segment(points[|points| - 2], points[|points| - 1]);
    }
  }

  /** A path without segments is never closed; any path whose first start
      is its last end is. */
  lemma IsClosedCases(path: Path)
    ensures |path.segments| == 0 ==> !IsClosed(path)
    ensures |path.segments| > 0 && path.segments[0].p == path.segments[|path.segments| - 1].q ==> IsClosed(path)
  {
  }

  /** The rectangle has four segments going round the corners, the first
      start is the last end, and so the path is closed. */
  lemma RectangleClosed(width: real, height: real)
    ensures var s := Rectangle(width, height).segments;
            |s| == 4 && s[0].p == s[3].q
    ensures var x, y := width / 2.0, height / 2.0;
            PointsOf(Rectangle(width, height))
              == [Point(-x, y), Point(x, y), Point(x, -y), Point(-x, -y), Point(-x, y)]
    ensures IsClosed(Rectangle(width, height))
  {
    var x, y := width / 2.0, height / 2.0;
    var pts := Sh.FromListOfTuples([(-x, y), (x, y), (x, -y), (-x, -y), (-x, y)], false).points;
    assert pts == [Point(-x, y), Point(x, y), Point(x, -y), Point(-x, -y), Point(-x, y)];
    PointsRoundTrip(pts);
  }

  // polygons

  /** `Path.polygon(sides, radius, rotation)`: the same vertex loop as the
      point path's polygon, joined into segments. */
  method Polygon(sides: int, radius: real, rotation: real, cos: real -> real, sin: real -> real)
    returns (r: Result<Path>)
    ensures sides == 0 ==> r == Err(DivisionByZero)
    ensures sides != 0 ==> r == Ok(FromListOfTuples(Sh.PolygonCoords(sides, radius, rotation, cos, sin)))
  {
    var shape := Sh.Polygon(sides, radius, rotation, cos, sin);
    if shape.Err? {
      return Err(shape.error);
    }
    r := Ok(FromPoints(shape.value.points));
  }

  /** A polygon with `n > 0` sides has `n` segments, and when `cos` and
      `sin` have period `2 * pi` it is closed. */
  lemma PolygonClosed(sides: int, radius: real, rotation: real, cos: real -> real, sin: real -> real)
    requires sides > 0
    ensures |FromListOfTuples(Sh.PolygonCoords(sides, radius, rotation, cos, sin)).segments| == sides
    ensures (forall a :: cos(a + 2.0 * Tr.PI) == cos(a)) && (forall a :: sin(a + 2.0 * Tr.PI) == sin(a)) ==>
              IsClosed(FromListOfTuples(Sh.PolygonCoords(sides, radius, rotation, cos, sin)))
  {
    Sh.PolygonShape(sides, radius, rotation, cos, sin);
    var ps := Sh.FromListOfTuples(Sh.PolygonCoords(sides, radius, rotation, cos, sin), false).points;
    if |ps| >= 2 && ps[|ps| - 1] == ps[0] {
      EndsMeetClosed(ps);
    }
  }

  /** Points whose last is their first make a closed path. */
  lemma EndsMeetClosed(ps: seq<Point>)
    requires |ps| >= 2 && ps[|ps| - 1] == ps[0]
    ensures IsClosed(FromPoints(ps))
  {
    IsClosedFromPoints(ps);
    assert SquaredLength(Diff(ps[0], ps[0])) == 0.0;
  }

  /** `Path.regular_polygon(sides, side_length)`. */
  method RegularPolygon(sides: int, sideLength: real, cos: real -> real, sin: real -> real)
    returns (r: Result<Path>)
    ensures sides == 0 || sin(Tr.PI / (sides as real)) == 0.0 ==> r == Err(DivisionByZero)
    ensures sides != 0 && sin(Tr.PI / (sides as real)) != 0.0 ==>
              r == Ok(FromListOfTuples(Sh.PolygonCoords(sides, sideLength / (2.0 * sin(Tr.PI / (sides as real))), 0.0, cos, sin)))
  {
    if sides == 0 {
      return Err(DivisionByZero);
    }
    var denominator := 2.0 * sin(Tr.PI / (sides as real));
    if denominator == 0.0 {
      return Err(DivisionByZero);
    }
    r := Polygon(sides, sideLength / denominator, 0.0, cos, sin);
  }
}
