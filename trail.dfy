/** Trails (chalk/trail.py).

    A trail is a list of offsets with no fixed start. `to_path` lays the
    offsets end to end from a start point, giving a point path; `from_path`
    takes the differences between consecutive points. These two are inverse
    to each other, up to the start point that a trail forgets.
 */
module Trails {

  import opened Points
  import T = Transforms
  import S = Styles
  import Sh = Shapes
  import C = Core

  datatype Trail = Trail(offsets: seq<Vector>)

  /** `Trail.__add__`: the offsets of this trail, then those of `other`. */
  function Plus(a: Trail, b: Trail): (r: Trail)
    ensures |r.offsets| == |a.offsets| + |b.offsets|
  {
    Trail(a.offsets + b.offsets)
  }

  /** `+` is associative, and the trail without offsets is its unit on
      either side. */
  lemma PlusLaws(a: Trail, b: Trail, c: Trail)
    ensures Plus(Plus(a, b), c) == Plus(a, Plus(b, c))
    ensures Plus(a, Trail([])) == a && Plus(Trail([]), a) == a
    ensures Plus(a, b).offsets[..|a.offsets|] == a.offsets
    ensures Plus(a, b).offsets[|a.offsets|..] == b.offsets
  {
    assert (a.offsets + b.offsets) + c.offsets == a.offsets + (b.offsets + c.offsets);
    assert a.offsets + [] == a.offsets;
    assert [] + a.offsets == a.offsets;
  }

  // from_path

  /** `[t - s for s, t in zip(pts, pts[1:])]`: one offset per pair of
      consecutive points, none for a path of fewer than two points. */
  function Differences(pts: seq<Point>): (r: seq<Vector>)
    ensures |r| == if |pts| == 0 then 0 else |pts| - 1
    ensures forall i :: 0 <= i < |r| ==> r[i] == Diff(pts[i + 1], pts[i])
    decreases |pts|
  {
    if |pts| < 2 then [] else [Diff(pts[1], pts[0])] + Differences(pts[1..])
  }

  /** `Trail.from_path(path)`. */
  function FromPath(path: Sh.Shape): (r: Trail)
    requires path.Path?
    ensures r.offsets == Differences(path.points)
  {
    Trail(Differences(path.points))
  }

  // to_path

  /** The points that `to_path(origin)` lists: `origin`, then each point
      the previous one moved by the next offset. */
  function Positions(origin: Point, offsets: seq<Vector>): (r: seq<Point>)
    ensures |r| == |offsets| + 1
    ensures r[0] == origin
    decreases |offsets|
  {
    if |offsets| == 0 then [origin]
    else
      var ps := Positions(origin, offsets[..|offsets| - 1]);
      ps + [Add(ps[|ps| - 1], offsets[|offsets| - 1])]
  }

  /** `Trail.to_path(origin)`: the loop that appends `points[-1] + s` for
      each offset `s`. The path has no arrow. */
  method ToPath(t: Trail, origin: Point) returns (path: Sh.Shape)
    ensures path == Sh.Path(Positions(origin, t.offsets), false)
  {
    var points := [origin];
    var i := 0;
    while i < |t.offsets|
      invariant 0 <= i <= |t.offsets|
      invariant points == Positions(origin, t.offsets[..i])
    {
      assert t.offsets[..i + 1][..i] == t.offsets[..i];
      points := points + [Add(points[|points| - 1], t.offsets[i])];
      i := i + 1;
    }
    assert t.offsets[..i] == t.offsets;
    path := Sh.Path(points, false);
  }

  /** Point `i + 1` is point `i` moved by offset `i`. */
  lemma {:induction false} PositionAt(origin: Point, offsets: seq<Vector>, i: int)
    requires 0 <= i < |offsets|
    ensures var ps := Positions(origin, offsets);
            ps[i + 1] == Add(ps[i], offsets[i]) && Diff(ps[i + 1], ps[i]) == offsets[i]
    decreases |offsets|
  {
    var n := |offsets|;
    var init := offsets[..n - 1];
    var qs := Positions(origin, init);
    assert Positions(origin, offsets) == qs + [Add(qs[n - 1], offsets[n - 1])];
    if i < n - 1 {
      PositionAt(origin, init, i);
      assert init[i] == offsets[i];
    }
  }

  /** Each point of the path is the one before it moved by the matching
      offset, so consecutive points differ by exactly that offset. */
  lemma {:induction false} PositionsStep(origin: Point, offsets: seq<Vector>)
    ensures var ps := Positions(origin, offsets);
            forall i :: 0 <= i < |offsets| ==> ps[i + 1] == Add(ps[i], offsets[i])
    ensures var ps := Positions(origin, offsets);
            forall i :: 0 <= i < |offsets| ==> Diff(ps[i + 1], ps[i]) == offsets[i]
    decreases |offsets|
  {
    if |offsets| > 0 {
      var init := offsets[..|offsets| - 1];
      PositionsStep(origin, init);
      var ps := Positions(origin, offsets);
      assert ps[..|offsets|] == Positions(origin, init);
      forall i | 0 <= i < |offsets|
        ensures ps[i + 1] == Add(ps[i], offsets[i])
      {
        if i < |offsets| - 1 {
          assert init[i] == offsets[i];
          assert ps[i] == Positions(origin, init)[i];
          assert ps[i + 1] == Positions(origin, init)[i + 1];
        }
      }
    }
  }

  /** The positions are the only list that starts at `origin` and steps by
      each offset in turn. */
  lemma {:induction false} PositionsUnique(origin: Point, offsets: seq<Vector>, ps: seq<Point>)
    requires |ps| == |offsets| + 1 && ps[0] == origin
    requires forall i :: 0 <= i < |offsets| ==> ps[i + 1] == Add(ps[i], offsets[i])
    ensures ps == Positions(origin, offsets)
    decreases |offsets|
  {
    if |offsets| > 0 {
      var n := |offsets|;
      var init := offsets[..n - 1];
      forall i | 0 <= i < |init|
        ensures ps[..n][i + 1] == Add(ps[..n][i], init[i])
      {
        assert ps[i + 1] == Add(ps[i], offsets[i]);
      }
      PositionsUnique(origin, init, ps[..n]);
      var qs := Positions(origin, init);
      assert ps == ps[..n] + [ps[n]];
      assert ps[n] == Add(ps[n - 1], offsets[n - 1]);
      assert qs[|qs| - 1] == ps[n - 1];
    }
  }

  /** `Trail.from_path(t.to_path(o)).offsets == t.offsets`: the differences
      of the laid-out points are the offsets again, whatever the start. */
  lemma OffsetsRoundTrip(t: Trail, origin: Point)
    ensures FromPath(Sh.Path(Positions(origin, t.offsets), false)) == t
  {
    var ps := Positions(origin, t.offsets);
    PositionsStep(origin, t.offsets);
    var d := Differences(ps);
    assert |d| == |t.offsets|;
    forall i | 0 <= i < |d|
      ensures d[i] == t.offsets[i]
    {
      PositionAt(origin, t.offsets, i);
      assert d[i] == Diff(ps[i + 1], ps[i]);
    }
  }

  /** A path with at least one point gives a trail with one offset fewer,
      and laying that trail out from the first point recovers the points.
      The arrow flag is not part of a trail and comes back as False. */
  lemma PointsRoundTrip(path: Sh.Shape)
    requires path.Path? && |path.points| >= 1
    ensures |FromPath(path).offsets| == |path.points| - 1
    ensures Positions(path.points[0], FromPath(path).offsets) == path.points
  {
    var pts := path.points;
    var d := Differences(pts);
    forall i | 0 <= i < |d|
      ensures pts[i + 1] == Add(pts[i], d[i])
    {
    }
    PositionsUnique(pts[0], d, pts);
  }

  /** A path without points gives the trail without offsets, whose path is
      the start point alone. */
  lemma EmptyPathTrail(origin: Point, arrow: bool)
    ensures FromPath(Sh.Path([], arrow)).offsets == []
    ensures Positions(origin, []) == [origin]
  {
  }

  /** Laying out a sum of trails lays out the first, then continues the
      second from where the first ended. */
  lemma {:induction false} PositionsPlus(origin: Point, a: Trail, b: Trail)
    ensures var pa := Positions(origin, a.offsets);
            Positions(origin, Plus(a, b).offsets)
              == pa + Positions(pa[|pa| - 1], b.offsets)[1..]
  {
    var pa := Positions(origin, a.offsets);
    var end := pa[|pa| - 1];
    var pb := Positions(end, b.offsets);
    var ps := pa + pb[1..];
    var offs := Plus(a, b).offsets;
    forall i | 0 <= i < |offs|
      ensures ps[i + 1] == Add(ps[i], offs[i])
    {
      if i < |a.offsets| {
        PositionAt(origin, a.offsets, i);
        assert offs[i] == a.offsets[i];
        assert ps[i + 1] == pa[i + 1] && ps[i] == pa[i];
      } else {
        var j := i - |a.offsets|;
        PositionAt(end, b.offsets, j);
        assert offs[i] == b.offsets[j];
        assert ps[i + 1] == pb[j + 1];
        assert pb[0] == end;
        assert ps[i] == pb[j];
      }
    }
    PositionsUnique(origin, offs, ps);
  }

  // transform

  /** `[p.apply_transform(t) for p in offsets]`. */
  function MapVectors(vs: seq<Vector>, tr: T.Transform): (r: seq<Vector>)
    ensures |r| == |vs|
    ensures forall i :: 0 <= i < |vs| ==> r[i] == T.ApplyToVector(vs[i], tr)
    decreases |vs|
  {
    if |vs| == 0 then [] else [T.ApplyToVector(vs[0], tr)] + MapVectors(vs[1..], tr)
  }

  /** `Trail.transform(t)`; `apply_transform` returns the same trail. */
  function Transform(t: Trail, tr: T.Transform): (r: Trail)
    ensures |r.offsets| == |t.offsets|
  {
    Trail(MapVectors(t.offsets, tr))
  }

  /** A vector is unchanged by the identity, and two transforms in turn
      act as their Compose. */
  lemma VectorLaws(v: Vector, tr: T.Transform, u: T.Transform)
    ensures T.ApplyToVector(v, T.Identity) == v
    ensures T.ApplyToVector(T.ApplyToVector(v, u), tr) == T.ApplyToVector(v, T.Compose(tr, u))
  {
    var p := Point(v.dx, v.dy);
    T.ApplyToPointMeaning(p, T.Identity);
    T.ApplyToPointMeaning(p, T.Compose(tr, u));
    var q := T.ApplyToPoint(p, u);
    assert T.ApplyToVector(v, u) == Vector(q.x, q.y);
  }

  /** Mapping with `u` and then `tr` is mapping with their Compose. */
  lemma {:induction false} MapVectorsCompose(vs: seq<Vector>, tr: T.Transform, u: T.Transform)
    ensures MapVectors(MapVectors(vs, u), tr) == MapVectors(vs, T.Compose(tr, u))
    decreases |vs|
  {
    if |vs| > 0 {
      VectorLaws(vs[0], tr, u);
      MapVectorsCompose(vs[1..], tr, u);
      assert MapVectors(vs, u)[1..] == MapVectors(vs[1..], u);
    }
  }

  /** Mapping with the identity changes nothing. */
  lemma {:induction false} MapVectorsIdentity(vs: seq<Vector>)
    ensures MapVectors(vs, T.Identity) == vs
    decreases |vs|
  {
    if |vs| > 0 {
      VectorLaws(vs[0], T.Identity, T.Identity);
      MapVectorsIdentity(vs[1..]);
    }
  }

  /** Transforming with the identity changes no offset, and transforming
      with `u` and then `tr` is transforming with their Compose. */
  lemma TransformCompose(t: Trail, tr: T.Transform, u: T.Transform)
    ensures Transform(t, T.Identity) == t
    ensures Transform(Transform(t, u), tr) == Transform(t, T.Compose(tr, u))
  {
    MapVectorsIdentity(t.offsets);
    MapVectorsCompose(t.offsets, tr, u);
  }

  /** A sum of trails is transformed piece by piece. */
  lemma TransformPlus(a: Trail, b: Trail, tr: T.Transform)
    ensures Transform(Plus(a, b), tr) == Plus(Transform(a, tr), Transform(b, tr))
  {
    var l := Transform(Plus(a, b), tr).offsets;
    var r := Plus(Transform(a, tr), Transform(b, tr)).offsets;
    forall i | 0 <= i < |l|
      ensures l[i] == r[i]
    {
      if i < |a.offsets| {
        assert Plus(a, b).offsets[i] == a.offsets[i];
      } else {
        assert Plus(a, b).offsets[i] == b.offsets[i - |a.offsets|];
      }
    }
  }

  /** Since a vector is transformed as a point, a translation moves every
      offset by the translation. */
  lemma TransformTranslate(t: Trail, dx: real, dy: real)
    ensures var r := Transform(t, T.Translate(dx, dy));
            forall i :: 0 <= i < |t.offsets| ==>
              r.offsets[i] == Vector(t.offsets[i].dx + dx, t.offsets[i].dy + dy)
  {
  }

  // unit trails and stroke

  /** `unit_x`. */
  const UnitX: Trail := Trail([Vector(1.0, 0.0)])

  /** `unit_y`. */
  const UnitY: Trail := Trail([Vector(0.0, 1.0)])

  /** The unit trails lead from the start one unit along their axis. */
  lemma UnitPaths(origin: Point)
    ensures Positions(origin, UnitX.offsets) == [origin, Point(origin.x + 1.0, origin.y)]
    ensures Positions(origin, UnitY.offsets) == [origin, Point(origin.x, origin.y + 1.0)]
  {
    assert UnitX.offsets[..0] == [];
    assert UnitY.offsets[..0] == [];
  }

  /** `Trail.stroke()`: the trail's path from the origin as a primitive with
      the default style and no transform (`Primitive.from_shape`). */
  method Stroke(t: Trail) returns (d: C.Diagram)
    ensures d == C.Primitive(Sh.Path(Positions(ORIGIN, t.offsets), false), S.Default(), T.Identity)
  {
    var path := ToPath(t, ORIGIN);
    d := C.Primitive(path, S.Default(), T.Identity);
  }
}
