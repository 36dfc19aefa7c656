/** The diagram tree (chalk/core.py).

    A diagram is an immutable tree. Its leaves are primitives (a shape with a
    style and a transform) and the empty diagram; its inner nodes compose two
    diagrams under a cached box, or wrap one diagram in a transform, a style
    or a name. Three queries walk the tree: the bounding box under a
    transform, the flattening into primitives, and the box of a named
    sub-diagram. The combinators build new nodes from the boxes of their
    arguments.

    A query or combinator that needs the box of a path without points fails
    with `EmptyPath`, as the `points[0]` inside the library does.
 */
module Core {

  import opened Wrappers
  import opened Points
  import T = Transforms
  import B = BoundingBoxes
  import S = Styles
  import Sh = Shapes

  datatype Diagram =
    | Empty
    | Primitive(shape: Sh.Shape, style: S.Style, transform: T.Transform)
    | Compose(box: B.BoundingBox, diagram1: Diagram, diagram2: Diagram)
    | ApplyTransform(transform: T.Transform, diagram: Diagram)
    | ApplyStyle(style: S.Style, diagram: Diagram)
    | ApplyName(dname: string, diagram: Diagram)

  /** The node reached from `d` through transform, style and name wrappers:
      an Empty, a Primitive or a Compose. */
  function Base(d: Diagram): (r: Diagram)
    ensures r.Empty? || r.Primitive? || r.Compose?
  {
    match d
    case ApplyTransform(_, e) => Base(e)
    case ApplyStyle(_, e) => Base(e)
    case ApplyName(_, e) => Base(e)
    case _ => d
  }

  /** Whether the box of `d` needs the box of a path without points. */
  predicate BoxFails(d: Diagram) {
    Base(d).Primitive? && Base(d).shape.Path? && |Base(d).shape.points| == 0
  }

  // get_bounding_box

  /** `d.get_bounding_box(t)`. A primitive's box is its shape's box under
      `Compose(t, transform)`; a Compose node answers from its cached box
      without looking at its children; the empty diagram's box is the origin
      whatever `t` is. Every box the query returns is proper. */
  function GetBoundingBox(d: Diagram, t: T.Transform): (r: Result<B.BoundingBox>)
    ensures r.Ok? ==> B.Proper(r.value)
    ensures r.Err? <==> BoxFails(d)
    ensures r.Err? ==> r.error == EmptyPath
  {
    match d
    case Empty => Ok(B.Empty())
    case Primitive(s, _, tr) =>
      var sb :- Sh.ShapeBox(s);
      Ok(B.ApplyTransform(sb, T.Compose(t, tr)))
    case Compose(box, _, _) => Ok(B.ApplyTransform(box, t))
    case ApplyTransform(tr, e) => GetBoundingBox(e, T.Compose(t, tr))
    case ApplyStyle(_, e) => GetBoundingBox(e, t)
    case ApplyName(_, e) => GetBoundingBox(e, t)
  }

  /** The query depends on `t` only through the matrix `t` denotes. */
  lemma {:induction false} BoxCongruent(d: Diagram, t1: T.Transform, t2: T.Transform)
    requires T.MatrixOf(t1) == T.MatrixOf(t2)
    ensures GetBoundingBox(d, t1) == GetBoundingBox(d, t2)
  {
    match d
    case Primitive(s, _, tr) =>
      if Sh.ShapeBox(s).Ok? {
        PrimitiveBox(d, t1);
        PrimitiveBox(d, t2);
        ComposedCongruent(Sh.ShapeBox(s).value, t1, t2, tr);
      }
    case Compose(box, _, _) =>
      ComposedBox(d, t1);
      ComposedBox(d, t2);
      B.ApplyCongruent(box, t1, t2);
    case ApplyTransform(tr, e) =>
      BoxCongruent(e, T.Compose(t1, tr), T.Compose(t2, tr));
    case ApplyStyle(_, e) =>
      BoxCongruent(e, t1, t2);
    case ApplyName(_, e) =>
      BoxCongruent(e, t1, t2);
    case _ =>
  }

  /** Transforming a box under `t1` or `t2` followed by `tr` agrees when `t1`
      and `t2` denote the same matrix. */
  lemma ComposedCongruent(sb: B.BoundingBox, t1: T.Transform, t2: T.Transform, tr: T.Transform)
    requires T.MatrixOf(t1) == T.MatrixOf(t2)
    ensures B.ApplyTransform(sb, T.Compose(t1, tr)) == B.ApplyTransform(sb, T.Compose(t2, tr))
  {
    T.ComposeCongruent(t1, t2, tr);
    B.ApplyCongruent(sb, T.Compose(t1, tr), T.Compose(t2, tr));
  }

  /** The box of a composite under `t` is its stored box transformed by `t`. */
  lemma ComposedBox(d: Diagram, t: T.Transform)
    requires d.Compose?
    ensures GetBoundingBox(d, t) == Ok(B.ApplyTransform(d.box, t))
  { }

  /** Style and name wrappers leave the box alone, and a diagram that reaches
      the empty diagram through wrappers has the origin box under every
      transform. */
  lemma {:induction false} BoxOfWrappers(d: Diagram, t: T.Transform, s: S.Style, n: string)
    ensures GetBoundingBox(ApplyStyle(s, d), t) == GetBoundingBox(d, t)
    ensures GetBoundingBox(ApplyName(n, d), t) == GetBoundingBox(d, t)
    ensures Base(d).Empty? ==> GetBoundingBox(d, t) == Ok(B.Empty())
  {
    match d
    case ApplyTransform(tr, e) =>
      BoxOfWrappers(e, T.Compose(t, tr), s, n);
    case ApplyStyle(_, e) =>
      BoxOfWrappers(e, t, s, n);
    case ApplyName(_, e) =>
      BoxOfWrappers(e, t, s, n);
    case _ =>
  }

  /** Translating after `t` moves the box by the translation vector, except
      for a diagram that reaches the empty diagram, whose box never moves. */
  lemma {:induction false} BoxThenTranslate(d: Diagram, t: T.Transform, v: Vector)
    requires !Base(d).Empty?
    ensures GetBoundingBox(d, T.Compose(T.Translate(v.dx, v.dy), t)).Ok? == GetBoundingBox(d, t).Ok?
    ensures GetBoundingBox(d, t).Ok? ==>
              GetBoundingBox(d, T.Compose(T.Translate(v.dx, v.dy), t)).value == B.Shift(GetBoundingBox(d, t).value, v)
  {
    var tr := T.Translate(v.dx, v.dy);
    match d
    case Primitive(s, _, ptr) =>
      if Sh.ShapeBox(s).Ok? {
        T.ComposeAssociative(tr, t, ptr);
        B.ApplyThenTranslate(Sh.ShapeBox(s).value, T.Compose(t, ptr), v.dx, v.dy);
        assert B.ApplyTransform(Sh.ShapeBox(s).value, T.Compose(T.Compose(tr, t), ptr))
            == B.ApplyTransform(Sh.ShapeBox(s).value, T.Compose(tr, T.Compose(t, ptr)));
      }
    case Compose(box, _, _) =>
      B.ApplyThenTranslate(box, t, v.dx, v.dy);
    case ApplyTransform(a, e) =>
      T.ComposeAssociative(tr, t, a);
      BoxCongruent(e, T.Compose(T.Compose(tr, t), a), T.Compose(tr, T.Compose(t, a)));
      BoxThenTranslate(e, T.Compose(t, a), v);
    case ApplyStyle(_, e) =>
      BoxThenTranslate(e, t, v);
    case ApplyName(_, e) =>
      BoxThenTranslate(e, t, v);
  }

  /** The box of `ApplyTransform(Translate(v), d)` is the box of `d` moved by
      `v`, unless `d` reaches the empty diagram; then both are the origin. */
  lemma TranslatedBox(d: Diagram, v: Vector)
    ensures var moved := GetBoundingBox(ApplyTransform(T.Translate(v.dx, v.dy), d), T.Identity);
            var box := GetBoundingBox(d, T.Identity);
            moved.Ok? == box.Ok? &&
            (box.Ok? ==> moved.value == if Base(d).Empty? then box.value else B.Shift(box.value, v))
  {
    var tr := T.Translate(v.dx, v.dy);
    T.ComposeIdentity(tr);
    BoxCongruent(d, T.Compose(T.Identity, tr), T.Compose(tr, T.Identity));
    if Base(d).Empty? {
      BoxOfWrappers(d, T.Compose(T.Identity, tr), S.Default(), "");
      BoxOfWrappers(d, T.Identity, S.Default(), "");
    } else {
      BoxThenTranslate(d, T.Identity, v);
    }
  }

  // to_list

  /** `Primitive.apply_transform(t)`: the transform is composed in front of
      the primitive's own one. */
  function PrimApplyTransform(p: Diagram, t: T.Transform): (r: Diagram)
    requires p.Primitive?
    ensures r.Primitive? && r.shape == p.shape && r.style == p.style
    ensures r.transform == T.Compose(t, p.transform)
  {
    Primitive(p.shape, p.style, T.Compose(t, p.transform))
  }

  /** `Primitive.apply_style(s)`: `s` is merged over the primitive's style, so
      every field `s` sets wins. */
  function PrimApplyStyle(p: Diagram, s: S.Style): (r: Diagram)
    requires p.Primitive?
    ensures r.Primitive? && r.shape == p.shape && r.transform == p.transform
    ensures r.style == S.Merge(p.style, s)
  {
    Primitive(p.shape, S.Merge(p.style, s), p.transform)
  }

  predicate AllPrimitive(ps: seq<Diagram>) {
    forall i :: 0 <= i < |ps| ==> ps[i].Primitive?
  }

  function MapTransform(ps: seq<Diagram>, t: T.Transform): (r: seq<Diagram>)
    requires AllPrimitive(ps)
    ensures |r| == |ps| && AllPrimitive(r)
    ensures forall i :: 0 <= i < |ps| ==> r[i] == PrimApplyTransform(ps[i], t)
  {
    if |ps| == 0 then [] else [PrimApplyTransform(ps[0], t)] + MapTransform(ps[1..], t)
  }

  function MapStyle(ps: seq<Diagram>, s: S.Style): (r: seq<Diagram>)
    requires AllPrimitive(ps)
    ensures |r| == |ps| && AllPrimitive(r)
    ensures forall i :: 0 <= i < |ps| ==> r[i] == PrimApplyStyle(ps[i], s)
  {
    if |ps| == 0 then [] else [PrimApplyStyle(ps[0], s)] + MapStyle(ps[1..], s)
  }

  /** `d.to_list(t)`: the primitives of `d`, left to right. The transform `t`
      is handed down unchanged and applied at every level on the way up: a
      primitive takes `t`, and an ApplyTransform node composes `t` with its
      own transform over each primitive its child returns. */
  function ToList(d: Diagram, t: T.Transform): (r: seq<Diagram>)
    ensures AllPrimitive(r)
  {
    match d
    case Empty => []
    case Primitive(_, _, _) => [PrimApplyTransform(d, t)]
    case Compose(_, a, b) => ToList(a, t) + ToList(b, t)
    case ApplyTransform(tr, e) => MapTransform(ToList(e, t), T.Compose(t, tr))
    case ApplyStyle(s, e) => MapStyle(ToList(e, t), s)
    case ApplyName(_, e) => ToList(e, t)
  }

  /** The shapes of the primitives of `d`, left to right: a reference
      definition of what `to_list` lists. */
  function ShapesOf(d: Diagram): seq<Sh.Shape> {
    match d
    case Empty => []
    case Primitive(s, _, _) => [s]
    case Compose(_, a, b) => ShapesOf(a) + ShapesOf(b)
    case ApplyTransform(_, e) => ShapesOf(e)
    case ApplyStyle(_, e) => ShapesOf(e)
    case ApplyName(_, e) => ShapesOf(e)
  }

  /** The shapes of a list of primitives. */
  function ListShapes(ps: seq<Diagram>): (r: seq<Sh.Shape>)
    requires AllPrimitive(ps)
    ensures |r| == |ps|
    ensures forall i :: 0 <= i < |ps| ==> r[i] == ps[i].shape
  {
    if |ps| == 0 then [] else [ps[0].shape] + ListShapes(ps[1..])
  }

  /** Whatever `t` is, `to_list` lists one primitive per primitive of the
      tree, in left-to-right order: a Compose node lists its first child's
      primitives before its second's, the empty diagram none, and the
      wrappers as many as their child. */
  lemma {:induction false} ToListShapes(d: Diagram, t: T.Transform)
    ensures ListShapes(ToList(d, t)) == ShapesOf(d)
  {
    match d
    case Empty =>
    case Primitive(_, _, _) =>
    case Compose(_, a, b) =>
      ToListShapes(a, t);
      ToListShapes(b, t);
      ShapesAppend(ToList(a, t), ToList(b, t));
    case ApplyTransform(tr, e) =>
      ToListShapes(e, t);
      ShapesTransformed(ToList(e, t), T.Compose(t, tr));
    case ApplyStyle(s, e) =>
      ToListShapes(e, t);
      ShapesStyled(ToList(e, t), s);
    case ApplyName(_, e) =>
      ToListShapes(e, t);
  }

  lemma ShapesAppend(a: seq<Diagram>, b: seq<Diagram>)
    requires AllPrimitive(a) && AllPrimitive(b)
    ensures AllPrimitive(a + b) && ListShapes(a + b) == ListShapes(a) + ListShapes(b)
  {
    assert AllPrimitive(a + b);
    assert ListShapes(a + b) == ListShapes(a) + ListShapes(b);
  }

  /** Re-transforming or re-styling a list of primitives keeps its shapes. */
  lemma ShapesTransformed(ps: seq<Diagram>, t: T.Transform)
    requires AllPrimitive(ps)
    ensures ListShapes(MapTransform(ps, t)) == ListShapes(ps)
  {
    assert ListShapes(MapTransform(ps, t)) == ListShapes(ps);
  }

  lemma ShapesStyled(ps: seq<Diagram>, s: S.Style)
    requires AllPrimitive(ps)
    ensures ListShapes(MapStyle(ps, s)) == ListShapes(ps)
  {
    assert ListShapes(MapStyle(ps, s)) == ListShapes(ps);
  }

  /** A primitive as it is finally drawn: its shape, its effective style and
      the matrix that places it. */
  datatype Placed = Placed(shape: Sh.Shape, style: S.Style, matrix: T.Matrix)

  /** An independent, top-down reading of the tree: `m` is the matrix of the
      transforms above, applied after the primitive's own, and `st` the merge
      of the styles above, where an outer style overrides an inner one and
      both override the primitive's. */
  function Flatten(d: Diagram, m: T.Matrix, st: S.Style): seq<Placed> {
    match d
    case Empty => []
    case Primitive(sh, s, tr) => [Placed(sh, S.Merge(s, st), T.Multiply(T.MatrixOf(tr), m))]
    case Compose(_, a, b) => Flatten(a, m, st) + Flatten(b, m, st)
    case ApplyTransform(tr, e) => Flatten(e, T.Multiply(T.MatrixOf(tr), m), st)
    case ApplyStyle(s, e) => Flatten(e, m, S.Merge(s, st))
    case ApplyName(_, e) => Flatten(e, m, st)
  }

  /** How a list of primitives is drawn. */
  function Placements(ps: seq<Diagram>): (r: seq<Placed>)
    requires AllPrimitive(ps)
    ensures |r| == |ps|
  {
    if |ps| == 0 then [] else [Placed(ps[0].shape, ps[0].style, T.MatrixOf(ps[0].transform))] + Placements(ps[1..])
  }

  lemma {:induction false} PlacementsAt(ps: seq<Diagram>, i: int)
    requires AllPrimitive(ps) && 0 <= i < |ps|
    ensures Placements(ps)[i] == Placed(ps[i].shape, ps[i].style, T.MatrixOf(ps[i].transform))
  {
    if i > 0 {
      PlacementsAt(ps[1..], i - 1);
    }
  }

  lemma {:induction false} PlacementsAppend(a: seq<Diagram>, b: seq<Diagram>)
    requires AllPrimitive(a) && AllPrimitive(b)
    ensures AllPrimitive(a + b) && Placements(a + b) == Placements(a) + Placements(b)
  {
    if |a| > 0 {
      assert (a + b)[0] == a[0] && (a + b)[1..] == a[1..] + b;
      PlacementsAppend(a[1..], b);
    } else {
      assert a + b == b;
    }
  }

  /** Placements seen from inside a context `(m, st)`. */
  function Lift(ps: seq<Placed>, m: T.Matrix, st: S.Style): (r: seq<Placed>)
    ensures |r| == |ps|
  {
    if |ps| == 0 then [] else [Placed(ps[0].shape, S.Merge(ps[0].style, st), T.Multiply(ps[0].matrix, m))] + Lift(ps[1..], m, st)
  }

  lemma {:induction false} LiftAt(ps: seq<Placed>, m: T.Matrix, st: S.Style, i: int)
    requires 0 <= i < |ps|
    ensures Lift(ps, m, st)[i] == Placed(ps[i].shape, S.Merge(ps[i].style, st), T.Multiply(ps[i].matrix, m))
  {
    if i > 0 {
      LiftAt(ps[1..], m, st, i - 1);
    }
  }

  lemma {:induction false} LiftAppend(a: seq<Placed>, b: seq<Placed>, m: T.Matrix, st: S.Style)
    ensures Lift(a + b, m, st) == Lift(a, m, st) + Lift(b, m, st)
  {
    if |a| > 0 {
      assert (a + b)[0] == a[0] && (a + b)[1..] == a[1..] + b;
      LiftAppend(a[1..], b, m, st);
    } else {
      assert a + b == b;
    }
  }

  /** Placing under `Compose(Identity, tr)` and then under `m` is placing
      under `tr` followed by `m`. */
  lemma MatrixStep(p: T.Matrix, mt: T.Matrix, m: T.Matrix)
    ensures T.Multiply(T.Multiply(p, T.Multiply(mt, T.IdentityMatrix)), m) == T.Multiply(p, T.Multiply(mt, m))
  {
    T.MultiplyIdentity(mt);
    T.MultiplyAssociative(p, mt, m);
  }

  /** A primitive listed at the identity is placed by its own matrix. */
  lemma PlacedAtIdentity(sh: Sh.Shape, s: S.Style, tr: T.Transform)
    ensures Placements(ToList(Primitive(sh, s, tr), T.Identity)) == [Placed(sh, s, T.MatrixOf(tr))]
  {
    ListedAtIdentity(sh, s, tr);
    PlacedOne(sh, s, T.Compose(T.Identity, tr));
    T.ComposeIdentity(tr);
  }

  /** A primitive lists itself, under the identity. */
  lemma ListedAtIdentity(sh: Sh.Shape, s: S.Style, tr: T.Transform)
    ensures ToList(Primitive(sh, s, tr), T.Identity) == [Primitive(sh, s, T.Compose(T.Identity, tr))]
  {
  }

  /** A single primitive is placed by its transform's matrix. */
  lemma PlacedOne(sh: Sh.Shape, s: S.Style, c: T.Transform)
    ensures Placements([Primitive(sh, s, c)]) == [Placed(sh, s, T.MatrixOf(c))]
  {
    assert [Primitive(sh, s, c)][1..] == [];
  }

  /** A single placement seen from inside `(m, st)`. */
  lemma LiftOne(p: Placed, m: T.Matrix, st: S.Style)
    ensures Lift([p], m, st) == [Placed(p.shape, S.Merge(p.style, st), T.Multiply(p.matrix, m))]
  {
    assert [p][1..] == [];
  }

  /** The Primitive step of `FlattenLifts`. */
  lemma LiftsPrimitive(sh: Sh.Shape, s: S.Style, tr: T.Transform, m: T.Matrix, st: S.Style)
    ensures Flatten(Primitive(sh, s, tr), m, st) == Lift(Placements(ToList(Primitive(sh, s, tr), T.Identity)), m, st)
  {
    PlacedAtIdentity(sh, s, tr);
    LiftOne(Placed(sh, s, T.MatrixOf(tr)), m, st);
  }

  /** The Compose step of `FlattenLifts`. */
  lemma LiftsUnderCompose(box: B.BoundingBox, a: Diagram, b: Diagram, m: T.Matrix, st: S.Style)
    requires Flatten(a, m, st) == Lift(Placements(ToList(a, T.Identity)), m, st)
    requires Flatten(b, m, st) == Lift(Placements(ToList(b, T.Identity)), m, st)
    ensures Flatten(Compose(box, a, b), m, st) == Lift(Placements(ToList(Compose(box, a, b), T.Identity)), m, st)
  {
    var la, lb := ToList(a, T.Identity), ToList(b, T.Identity);
    PlacementsAppend(la, lb);
    LiftAppend(Placements(la), Placements(lb), m, st);
  }

  /** A list of primitives transformed by `tr`, seen from `(m, st)`, is the
      list seen from `tr`'s matrix followed by `m`. */
  lemma LiftedList(inner: seq<Diagram>, tr: T.Transform, m: T.Matrix, st: S.Style)
    requires AllPrimitive(inner)
    ensures Lift(Placements(MapTransform(inner, T.Compose(T.Identity, tr))), m, st)
         == Lift(Placements(inner), T.Multiply(T.MatrixOf(tr), m), st)
  {
    var l := Lift(Placements(MapTransform(inner, T.Compose(T.Identity, tr))), m, st);
    var k := Lift(Placements(inner), T.Multiply(T.MatrixOf(tr), m), st);
    forall i | 0 <= i < |l|
      ensures l[i] == k[i]
    {
      LiftedAt(inner, tr, m, st, i);
    }
    assert l == k;
  }

  /** One primitive of a transformed list, seen from `(m, st)`, is the
      primitive seen from the transform's matrix followed by `m`. */
  lemma LiftedAt(inner: seq<Diagram>, tr: T.Transform, m: T.Matrix, st: S.Style, i: int)
    requires AllPrimitive(inner) && 0 <= i < |inner|
    ensures Lift(Placements(MapTransform(inner, T.Compose(T.Identity, tr))), m, st)[i]
         == Lift(Placements(inner), T.Multiply(T.MatrixOf(tr), m), st)[i]
  {
    var mt := T.MatrixOf(tr);
    var x := inner[i];
    var ps := Placements(MapTransform(inner, T.Compose(T.Identity, tr)));
    MovedPlacement(inner, tr, i);
    PlacementsAt(inner, i);
    LiftAt(ps, m, st, i);
    LiftAt(Placements(inner), T.Multiply(mt, m), st, i);
    MatrixStep(T.MatrixOf(x.transform), mt, m);
  }

  /** One primitive of a list transformed by `tr` is placed by its own
      matrix followed by `tr`'s. */
  lemma MovedPlacement(inner: seq<Diagram>, tr: T.Transform, i: int)
    requires AllPrimitive(inner) && 0 <= i < |inner|
    ensures var x := inner[i];
            Placements(MapTransform(inner, T.Compose(T.Identity, tr)))[i]
            == Placed(x.shape, x.style, T.Multiply(T.MatrixOf(x.transform), T.Multiply(T.MatrixOf(tr), T.IdentityMatrix)))
  {
    MappedPlacement(inner, T.Compose(T.Identity, tr), i);
    T.AfterIdentityMatrix(tr, inner[i].transform);
  }

  /** One primitive of a list transformed by `c` is placed by `c` composed
      with its own transform. */
  lemma MappedPlacement(inner: seq<Diagram>, c: T.Transform, i: int)
    requires AllPrimitive(inner) && 0 <= i < |inner|
    ensures var x := inner[i];
            Placements(MapTransform(inner, c))[i] == Placed(x.shape, x.style, T.MatrixOf(T.Compose(c, x.transform)))
  {
    var moved := MapTransform(inner, c);
    assert moved[i] == Primitive(inner[i].shape, inner[i].style, T.Compose(c, inner[i].transform));
    PlacementsAt(moved, i);
  }

  /** A list of primitives styled by `s`, seen from `(m, st)`, is the list
      seen from `s` merged under `st`. */
  lemma StyledList(inner: seq<Diagram>, s: S.Style, m: T.Matrix, st: S.Style)
    requires AllPrimitive(inner)
    ensures Lift(Placements(MapStyle(inner, s)), m, st) == Lift(Placements(inner), m, S.Merge(s, st))
  {
    var styled := MapStyle(inner, s);
    var l := Lift(Placements(styled), m, st);
    var k := Lift(Placements(inner), m, S.Merge(s, st));
    forall i | 0 <= i < |l|
      ensures l[i] == k[i]
    {
      PlacementsAt(styled, i);
      PlacementsAt(inner, i);
      LiftAt(Placements(styled), m, st, i);
      LiftAt(Placements(inner), m, S.Merge(s, st), i);
      S.MergeLaws(inner[i].style, s, st);
    }
    assert l == k;
  }

  /** Reading the tree top-down from a context `(m, st)` is flattening it at
      the identity and placing the result inside that context. */
  lemma {:induction false} FlattenLifts(d: Diagram, m: T.Matrix, st: S.Style)
    ensures Flatten(d, m, st) == Lift(Placements(ToList(d, T.Identity)), m, st)
  {
    match d
    case Empty =>
    case Primitive(sh, s, tr) =>
      LiftsPrimitive(sh, s, tr, m, st);
    case Compose(box, a, b) =>
      FlattenLifts(a, m, st);
      FlattenLifts(b, m, st);
      LiftsUnderCompose(box, a, b, m, st);
    case ApplyTransform(tr, e) =>
      FlattenLifts(e, T.Multiply(T.MatrixOf(tr), m), st);
      LiftedList(ToList(e, T.Identity), tr, m, st);
    case ApplyStyle(s, e) =>
      FlattenLifts(e, m, S.Merge(s, st));
      StyledList(ToList(e, T.Identity), s, m, st);
    case ApplyName(_, e) =>
      FlattenLifts(e, m, st);
  }

  /** `to_list()` draws every primitive with the merge of its own style and
      the styles above it, the outer ones winning, and with its own transform
      followed by the transforms above it, innermost first: it agrees with
      the top-down reading of the tree. */
  lemma ToListFlattens(d: Diagram)
    ensures Placements(ToList(d, T.Identity)) == Flatten(d, T.IdentityMatrix, S.Default())
  {
    FlattenLifts(d, T.IdentityMatrix, S.Default());
    LiftFromOrigin(Placements(ToList(d, T.Identity)));
  }

  /** Seen from the identity and the default style, placements stay as
      they are. */
  lemma LiftFromOrigin(ps: seq<Placed>)
    ensures Lift(ps, T.IdentityMatrix, S.Default()) == ps
  {
    forall i | 0 <= i < |ps|
      ensures Lift(ps, T.IdentityMatrix, S.Default())[i] == ps[i]
    {
      LiftAt(ps, T.IdentityMatrix, S.Default(), i);
      T.MultiplyIdentity(ps[i].matrix);
      S.MergeLaws(ps[i].style, S.Default(), S.Default());
    }
  }

  // get_subdiagram_bounding_box

  /** `d.get_subdiagram_bounding_box(name, t)`: the box of the first
      sub-diagram called `name`, searching the first child of a Compose before
      the second; a name node answers for its own name only and does not
      search inside itself; a primitive and the empty diagram have no named
      parts. */
  function GetSubdiagramBoundingBox(d: Diagram, name: string, t: T.Transform): Result<Option<B.BoundingBox>> {
    match d
    case Empty => Ok(None)
    case Primitive(_, _, _) => Ok(None)
    case Compose(_, a, b) =>
      var bb :- GetSubdiagramBoundingBox(a, name, t);
      if bb.Some? then Ok(bb) else GetSubdiagramBoundingBox(b, name, t)
    case ApplyTransform(tr, e) => GetSubdiagramBoundingBox(e, name, T.Compose(t, tr))
    case ApplyStyle(_, e) => GetSubdiagramBoundingBox(e, name, t)
    case ApplyName(n, e) =>
      if name == n then
        var box :- GetBoundingBox(e, t);
        Ok(Some(box))
      else Ok(None)
  }

  /** A named sub-diagram that the search can see, with the transform it
      sits under. */
  datatype Entry = Entry(name: string, diagram: Diagram, transform: T.Transform)

  /** The name nodes of `d` that are not inside another name node, left to
      right. */
  function NamedEntries(d: Diagram, t: T.Transform): seq<Entry> {
    match d
    case Empty => []
    case Primitive(_, _, _) => []
    case Compose(_, a, b) => NamedEntries(a, t) + NamedEntries(b, t)
    case ApplyTransform(tr, e) => NamedEntries(e, T.Compose(t, tr))
    case ApplyStyle(_, e) => NamedEntries(e, t)
    case ApplyName(n, e) => [Entry(n, e, t)]
  }

  /** A reference lookup: the box of the first entry called `name`. */
  function Lookup(es: seq<Entry>, name: string): (r: Result<Option<B.BoundingBox>>)
    ensures r == Ok(None) <==> forall i :: 0 <= i < |es| ==> es[i].name != name
  {
    if |es| == 0 then Ok(None)
    else if es[0].name == name then
      var box :- GetBoundingBox(es[0].diagram, es[0].transform);
      Ok(Some(box))
    else
      var r := Lookup(es[1..], name);
      assert forall i :: 1 <= i < |es| ==> es[i] == es[1..][i - 1];
      r
  }

  lemma {:induction false} LookupAppend(a: seq<Entry>, b: seq<Entry>, name: string)
    ensures Lookup(a + b, name) == if Lookup(a, name) == Ok(None) then Lookup(b, name) else Lookup(a, name)
  {
    if |a| > 0 {
      assert (a + b)[0] == a[0];
      assert (a + b)[1..] == a[1..] + b;
      LookupAppend(a[1..], b, name);
    } else {
      assert a + b == b;
    }
  }

  /** The named search finds the first visible name node with that name,
      left to right, and reports the box of the diagram inside it under the
      transforms above it. */
  lemma {:induction false} SubdiagramLookup(d: Diagram, name: string, t: T.Transform)
    ensures GetSubdiagramBoundingBox(d, name, t) == Lookup(NamedEntries(d, t), name)
  {
    match d
    case Compose(_, a, b) =>
      SubdiagramLookup(a, name, t);
      SubdiagramLookup(b, name, t);
      LookupAppend(NamedEntries(a, t), NamedEntries(b, t), name);
    case ApplyTransform(tr, e) =>
      SubdiagramLookup(e, name, T.Compose(t, tr));
    case ApplyStyle(_, e) =>
      SubdiagramLookup(e, name, t);
    case ApplyName(n, e) =>
      assert [Entry(n, e, t)][1..] == [];
    case _ =>
  }

  /** A name that no visible name node carries is not found; a name node
      reports its diagram's box for its own name only. */
  lemma SubdiagramNotFound(d: Diagram, name: string, t: T.Transform)
    ensures (forall i :: 0 <= i < |NamedEntries(d, t)| ==> NamedEntries(d, t)[i].name != name) <==>
            GetSubdiagramBoundingBox(d, name, t) == Ok(None)
  {
    SubdiagramLookup(d, name, t);
  }

  // Combinators

  /** `Diagram.apply_transform(t)`, which `Primitive` overrides: a primitive
      takes the transform into its own, any other diagram is wrapped. */
  function Transformed(d: Diagram, t: T.Transform): Diagram {
    if d.Primitive? then PrimApplyTransform(d, t) else ApplyTransform(t, d)
  }

  /** Both ways of applying a transform give the same box. */
  lemma TransformedBox(d: Diagram, t: T.Transform)
    ensures GetBoundingBox(Transformed(d, t), T.Identity) == GetBoundingBox(ApplyTransform(t, d), T.Identity)
  {
    if d.Primitive? && Sh.ShapeBox(d.shape).Ok? {
      PrimitiveBox(PrimApplyTransform(d, t), T.Identity);
      PrimitiveBox(d, T.Compose(T.Identity, t));
      RegroupedBox(Sh.ShapeBox(d.shape).value, t, d.transform);
    }
  }

  /** Transforming a box under `t` then `tr` does not depend on how the
      composition is grouped. */
  lemma RegroupedBox(sb: B.BoundingBox, t: T.Transform, tr: T.Transform)
    ensures B.ApplyTransform(sb, T.Compose(T.Identity, T.Compose(t, tr)))
         == B.ApplyTransform(sb, T.Compose(T.Compose(T.Identity, t), tr))
  {
    T.ComposeAssociative(T.Identity, t, tr);
    B.ApplyCongruent(sb, T.Compose(T.Identity, T.Compose(t, tr)), T.Compose(T.Compose(T.Identity, t), tr));
  }

  /** The box of a primitive whose shape has one, under `t`. */
  lemma PrimitiveBox(d: Diagram, t: T.Transform)
    requires d.Primitive? && Sh.ShapeBox(d.shape).Ok?
    ensures GetBoundingBox(d, t) == Ok(B.ApplyTransform(Sh.ShapeBox(d.shape).value, T.Compose(t, d.transform)))
  {
  }

  lemma IdentityPadding(p: T.Matrix, q: T.Matrix)
    ensures T.Multiply(T.Multiply(p, q), T.IdentityMatrix)
         == T.Multiply(T.Multiply(p, T.IdentityMatrix), T.Multiply(q, T.IdentityMatrix))
  {
    T.MultiplyIdentity(p);
    T.MultiplyIdentity(q);
    T.MultiplyIdentity(T.Multiply(p, q));
  }

  /** Both ways of applying a transform draw, at the identity, the same
      primitives in the same places. */
  lemma TransformedPlacements(d: Diagram, t: T.Transform)
    ensures Placements(ToList(Transformed(d, t), T.Identity)) == Placements(ToList(ApplyTransform(t, d), T.Identity))
  {
    if d.Primitive? {
      PrimitivePlacements(d.shape, d.style, d.transform, t);
    }
  }

  lemma PrimitivePlacements(sh: Sh.Shape, s: S.Style, ptr: T.Transform, t: T.Transform)
    ensures Placements(ToList(Primitive(sh, s, T.Compose(t, ptr)), T.Identity))
         == Placements(MapTransform(ToList(Primitive(sh, s, ptr), T.Identity), T.Compose(T.Identity, t)))
  {
    var c := T.Compose(T.Identity, t);
    ListedAtIdentity(sh, s, T.Compose(t, ptr));
    PlacedOne(sh, s, T.Compose(T.Identity, T.Compose(t, ptr)));
    ListedAtIdentity(sh, s, ptr);
    MappedOne(sh, s, T.Compose(T.Identity, ptr), c);
    PlacedOne(sh, s, T.Compose(c, T.Compose(T.Identity, ptr)));
    TransformedMatrices(t, ptr);
  }

  /** A one-primitive list transformed by `u`. */
  lemma MappedOne(sh: Sh.Shape, s: S.Style, c: T.Transform, u: T.Transform)
    ensures MapTransform([Primitive(sh, s, c)], u) == [Primitive(sh, s, T.Compose(u, c))]
  {
    assert [Primitive(sh, s, c)][1..] == [];
  }

  /** Both ways of listing a transformed primitive denote the same matrix. */
  lemma TransformedMatrices(t: T.Transform, ptr: T.Transform)
    ensures T.MatrixOf(T.Compose(T.Identity, T.Compose(t, ptr)))
         == T.MatrixOf(T.Compose(T.Compose(T.Identity, t), T.Compose(T.Identity, ptr)))
  {
    IdentityPadding(T.MatrixOf(ptr), T.MatrixOf(t));
  }

  /** `named(name)`. */
  function Named(d: Diagram, name: string): (r: Diagram)
    ensures GetSubdiagramBoundingBox(r, name, T.Identity).Ok? <==> !BoxFails(d)
    ensures !BoxFails(d) ==> GetSubdiagramBoundingBox(r, name, T.Identity) == Ok(Some(GetBoundingBox(d, T.Identity).value))
    ensures forall n :: n != name ==> GetSubdiagramBoundingBox(r, n, T.Identity) == Ok(None)
    ensures GetBoundingBox(r, T.Identity) == GetBoundingBox(d, T.Identity)
  {
    ApplyName(name, d)
  }

  // The style setters: each wraps the diagram in a style that sets one field.
  // The box is unchanged, and every primitive keeps its shape, its transform
  // and its other style fields while the one field is set.

  /** `line_width(width)`. */
  function LineWidth(d: Diagram, width: real): (r: Diagram)
    ensures GetBoundingBox(r, T.Identity) == GetBoundingBox(d, T.Identity)
    ensures |ToList(r, T.Identity)| == |ToList(d, T.Identity)|
    ensures forall i :: 0 <= i < |ToList(d, T.Identity)| ==>
              var p, q := ToList(r, T.Identity)[i], ToList(d, T.Identity)[i];
              p.shape == q.shape && p.transform == q.transform && p.style == q.style.(lineWidth := Some(width))
  {
    ApplyStyle(S.Style(Some(width), None, None, None, None), d)
  }

  /** `line_color(color)`. */
  function LineColor(d: Diagram, color: S.Color): (r: Diagram)
    ensures GetBoundingBox(r, T.Identity) == GetBoundingBox(d, T.Identity)
    ensures |ToList(r, T.Identity)| == |ToList(d, T.Identity)|
    ensures forall i :: 0 <= i < |ToList(d, T.Identity)| ==>
              var p, q := ToList(r, T.Identity)[i], ToList(d, T.Identity)[i];
              p.shape == q.shape && p.transform == q.transform && p.style == q.style.(lineColor := Some(color))
  {
    ApplyStyle(S.Style(None, Some(color), None, None, None), d)
  }

  /** `fill_color(color)`. */
  function FillColor(d: Diagram, color: S.Color): (r: Diagram)
    ensures GetBoundingBox(r, T.Identity) == GetBoundingBox(d, T.Identity)
    ensures |ToList(r, T.Identity)| == |ToList(d, T.Identity)|
    ensures forall i :: 0 <= i < |ToList(d, T.Identity)| ==>
              var p, q := ToList(r, T.Identity)[i], ToList(d, T.Identity)[i];
              p.shape == q.shape && p.transform == q.transform && p.style == q.style.(fillColor := Some(color))
  {
    ApplyStyle(S.Style(None, None, Some(color), None, None), d)
  }

  /** `fill_opacity(opacity)`. */
  function FillOpacity(d: Diagram, opacity: real): (r: Diagram)
    ensures GetBoundingBox(r, T.Identity) == GetBoundingBox(d, T.Identity)
    ensures |ToList(r, T.Identity)| == |ToList(d, T.Identity)|
    ensures forall i :: 0 <= i < |ToList(d, T.Identity)| ==>
              var p, q := ToList(r, T.Identity)[i], ToList(d, T.Identity)[i];
              p.shape == q.shape && p.transform == q.transform && p.style == q.style.(fillOpacity := Some(opacity))
  {
    ApplyStyle(S.Style(None, None, None, Some(opacity), None), d)
  }

  /** `dashing(strokes, offset)`. */
  function Dashing(d: Diagram, strokes: seq<real>, offset: real): (r: Diagram)
    ensures GetBoundingBox(r, T.Identity) == GetBoundingBox(d, T.Identity)
    ensures |ToList(r, T.Identity)| == |ToList(d, T.Identity)|
    ensures forall i :: 0 <= i < |ToList(d, T.Identity)| ==>
              var p, q := ToList(r, T.Identity)[i], ToList(d, T.Identity)[i];
              p.shape == q.shape && p.transform == q.transform &&
              p.style == q.style.(dashing := Some(S.Dashing(strokes, offset)))
  {
    ApplyStyle(S.Style(None, None, None, None, Some(S.Dashing(strokes, offset))), d)
  }

  /** `a.atop(b)`: both stay where they are, under the union of their boxes. */
  function Atop(a: Diagram, b: Diagram): Result<Diagram> {
    var box1 :- GetBoundingBox(a, T.Identity);
    var box2 :- GetBoundingBox(b, T.Identity);
    Ok(Compose(B.Union(box1, box2), a, b))
  }

  /** At the identity, a Compose node reports its cached box, put right side
      out; a proper cached box is reported as it is. */
  lemma CachedBox(box: B.BoundingBox, a: Diagram, b: Diagram)
    ensures GetBoundingBox(Compose(box, a, b), T.Identity) == Ok(B.Normalize(box))
    ensures B.Proper(box) ==> GetBoundingBox(Compose(box, a, b), T.Identity) == Ok(box)
  {
    B.ApplyIdentity(box);
  }

  /** Atop fails exactly when one of the boxes does; its box is the union of
      the two boxes, and it lists `a`'s primitives before `b`'s. */
  lemma AtopBox(a: Diagram, b: Diagram)
    ensures Atop(a, b).Err? <==> BoxFails(a) || BoxFails(b)
    ensures Atop(a, b).Ok? ==>
              GetBoundingBox(Atop(a, b).value, T.Identity)
              == Ok(B.Union(GetBoundingBox(a, T.Identity).value, GetBoundingBox(b, T.Identity).value))
    ensures Atop(a, b).Ok? ==> ToList(Atop(a, b).value, T.Identity) == ToList(a, T.Identity) + ToList(b, T.Identity)
  {
    var r := Atop(a, b);
    if r.Ok? {
      var u := B.Union(GetBoundingBox(a, T.Identity).value, GetBoundingBox(b, T.Identity).value);
      assert r.value == Compose(u, a, b);
      CachedBox(u, a, b);
    }
  }

  /** The shared shape of `beside`, `above` and `at_center`: `b` moved by
      `v`, set with `a` under the union of `a`'s box and `b`'s box moved by
      `v`. */
  function MoveSecond(box1: B.BoundingBox, a: Diagram, box2: B.BoundingBox, b: Diagram, v: Vector): Diagram {
    var t := T.Translate(v.dx, v.dy);
    Compose(B.Union(box1, B.ApplyTransform(box2, t)), a, ApplyTransform(t, b))
  }

  /** The shape of `above2`: `a` moved by `v`, set with `b` under the union
      of `b`'s box and `a`'s box moved by `v`. */
  function MoveFirst(box1: B.BoundingBox, a: Diagram, box2: B.BoundingBox, b: Diagram, v: Vector): Diagram {
    var t := T.Translate(v.dx, v.dy);
    Compose(B.Union(box2, B.ApplyTransform(box1, t)), ApplyTransform(t, a), b)
  }

  /** `a.beside(b)`: `b` moved right so that its left edge meets `a`'s right
      edge. */
  function Beside(a: Diagram, b: Diagram): Result<Diagram> {
    var box1 :- GetBoundingBox(a, T.Identity);
    var box2 :- GetBoundingBox(b, T.Identity);
    Ok(MoveSecond(box1, a, box2, b, Vector(B.Right(box1) - B.Left(box2), 0.0)))
  }

  /** `a.above(b)`: `b` moved down so that its top edge meets `a`'s bottom
      edge. */
  function Above(a: Diagram, b: Diagram): Result<Diagram> {
    var box1 :- GetBoundingBox(a, T.Identity);
    var box2 :- GetBoundingBox(b, T.Identity);
    Ok(MoveSecond(box1, a, box2, b, Vector(0.0, B.Bottom(box1) - B.Top(box2))))
  }

  /** `a.above2(b)`: `a` moved up so that its bottom edge meets `b`'s top
      edge; `b` stays. */
  function Above2(a: Diagram, b: Diagram): Result<Diagram> {
    var box1 :- GetBoundingBox(a, T.Identity);
    var box2 :- GetBoundingBox(b, T.Identity);
    Ok(MoveFirst(box1, a, box2, b, Vector(0.0, -(B.Bottom(box1) - B.Top(box2)))))
  }

  /** `a.at_center(b)`: `b` moved by the vector from the origin to `a`'s
      center. */
  function AtCenter(a: Diagram, b: Diagram): Result<Diagram> {
    var box1 :- GetBoundingBox(a, T.Identity);
    var box2 :- GetBoundingBox(b, T.Identity);
    var c := B.Center(box1);
    Ok(MoveSecond(box1, a, box2, b, Vector(c.x, c.y)))
  }

  /** The placing combinators fail exactly when one of the two boxes does. */
  lemma PlacingFails(a: Diagram, b: Diagram)
    ensures Beside(a, b).Err? <==> BoxFails(a) || BoxFails(b)
    ensures Above(a, b).Err? <==> BoxFails(a) || BoxFails(b)
    ensures Above2(a, b).Err? <==> BoxFails(a) || BoxFails(b)
    ensures AtCenter(a, b).Err? <==> BoxFails(a) || BoxFails(b)
  {
    BesideFails(a, b);
    AboveFails(a, b);
    Above2Fails(a, b);
    AtCenterFails(a, b);
  }

  lemma BesideFails(a: Diagram, b: Diagram)
    ensures Beside(a, b).Err? <==> BoxFails(a) || BoxFails(b)
  {
  }

  lemma AboveFails(a: Diagram, b: Diagram)
    ensures Above(a, b).Err? <==> BoxFails(a) || BoxFails(b)
  {
  }

  lemma Above2Fails(a: Diagram, b: Diagram)
    ensures Above2(a, b).Err? <==> BoxFails(a) || BoxFails(b)
  {
  }

  lemma AtCenterFails(a: Diagram, b: Diagram)
    ensures AtCenter(a, b).Err? <==> BoxFails(a) || BoxFails(b)
  {
  }

  /** A translated diagram whose box is `box` has `box` moved by `v` as its
      box, unless it reaches the empty diagram; then `box` is the origin box
      and does not move. */
  lemma TranslatedBoxOk(d: Diagram, box: B.BoundingBox, v: Vector)
    requires GetBoundingBox(d, T.Identity) == Ok(box)
    ensures GetBoundingBox(ApplyTransform(T.Translate(v.dx, v.dy), d), T.Identity)
            == Ok(if Base(d).Empty? then box else B.Shift(box, v))
    ensures Base(d).Empty? ==> box == B.Empty()
  {
    TranslatedBox(d, v);
    BoxOfWrappers(d, T.Identity, S.Default(), "");
  }

  /** With proper boxes, `MoveSecond` caches the union of `box1` and `box2`
      shifted by `v`, reports it as its box, keeps `a` and moves `b`, whose
      own box is then the shifted one; it draws `a`'s shapes, then `b`'s. */
  lemma MoveSecondBox(box1: B.BoundingBox, a: Diagram, box2: B.BoundingBox, b: Diagram, v: Vector)
    requires B.Proper(box1) && GetBoundingBox(b, T.Identity) == Ok(box2)
    ensures var moved := B.Shift(box2, v);
            var r := MoveSecond(box1, a, box2, b, v);
            B.ApplyTransform(box2, T.Translate(v.dx, v.dy)) == moved &&
            r == Compose(B.Union(box1, moved), a, ApplyTransform(T.Translate(v.dx, v.dy), b)) &&
            GetBoundingBox(r, T.Identity) == Ok(B.Union(box1, moved)) &&
            (!Base(b).Empty? ==> GetBoundingBox(r.diagram2, T.Identity) == Ok(moved)) &&
            ShapesOf(r) == ShapesOf(a) + ShapesOf(b)
  {
    var moved := B.Shift(box2, v);
    B.ApplyTranslate(box2, v.dx, v.dy);
    CachedBox(B.Union(box1, moved), a, ApplyTransform(T.Translate(v.dx, v.dy), b));
    TranslatedBoxOk(b, box2, v);
  }

  /** The same for `MoveFirst`, which moves `a` and keeps `b`. */
  lemma MoveFirstBox(box1: B.BoundingBox, a: Diagram, box2: B.BoundingBox, b: Diagram, v: Vector)
    requires GetBoundingBox(a, T.Identity) == Ok(box1) && B.Proper(box2)
    ensures var moved := B.Shift(box1, v);
            var r := MoveFirst(box1, a, box2, b, v);
            B.ApplyTransform(box1, T.Translate(v.dx, v.dy)) == moved &&
            r == Compose(B.Union(box2, moved), ApplyTransform(T.Translate(v.dx, v.dy), a), b) &&
            GetBoundingBox(r, T.Identity) == Ok(B.Union(box2, moved)) &&
            (!Base(a).Empty? ==> GetBoundingBox(r.diagram1, T.Identity) == Ok(moved)) &&
            ShapesOf(r) == ShapesOf(a) + ShapesOf(b)
  {
    var moved := B.Shift(box1, v);
    B.ApplyTranslate(box1, v.dx, v.dy);
    CachedBox(B.Union(box2, moved), ApplyTransform(T.Translate(v.dx, v.dy), a), b);
    TranslatedBoxOk(a, box1, v);
  }

  /** `box2` moved right so that its left edge is `box1`'s right edge keeps
      its size and vertical extent; the union starts at `box1`'s left edge
      and is as wide as both. */
  lemma BesideGeometry(box1: B.BoundingBox, box2: B.BoundingBox)
    requires B.Proper(box1) && B.Proper(box2)
    ensures var moved := B.Shift(box2, Vector(B.Right(box1) - B.Left(box2), 0.0));
            B.Left(moved) == B.Right(box1) && B.Width(moved) == B.Width(box2) &&
            B.Top(moved) == B.Top(box2) && B.Bottom(moved) == B.Bottom(box2) &&
            B.Left(B.Union(box1, moved)) == B.Left(box1) &&
            B.Width(B.Union(box1, moved)) == B.Width(box1) + B.Width(box2)
  {
  }

  /** `box2` moved down so that its top edge is `box1`'s bottom edge keeps
      its size and horizontal extent; the union starts at `box1`'s top edge
      and is as tall as both. */
  lemma AboveGeometry(box1: B.BoundingBox, box2: B.BoundingBox)
    requires B.Proper(box1) && B.Proper(box2)
    ensures var moved := B.Shift(box2, Vector(0.0, B.Bottom(box1) - B.Top(box2)));
            B.Top(moved) == B.Bottom(box1) && B.Height(moved) == B.Height(box2) &&
            B.Left(moved) == B.Left(box2) && B.Right(moved) == B.Right(box2) &&
            B.Top(B.Union(box1, moved)) == B.Top(box1) &&
            B.Height(B.Union(box1, moved)) == B.Height(box1) + B.Height(box2)
  {
  }

  /** `box1` moved up so that its bottom edge is `box2`'s top edge keeps its
      size and horizontal extent; the union ends at `box2`'s bottom edge and
      is as tall as both. */
  lemma Above2Geometry(box1: B.BoundingBox, box2: B.BoundingBox)
    requires B.Proper(box1) && B.Proper(box2)
    ensures var moved := B.Shift(box1, Vector(0.0, -(B.Bottom(box1) - B.Top(box2))));
            B.Bottom(moved) == B.Top(box2) && B.Height(moved) == B.Height(box1) &&
            B.Left(moved) == B.Left(box1) && B.Right(moved) == B.Right(box1) &&
            B.Bottom(B.Union(box2, moved)) == B.Bottom(box2) &&
            B.Height(B.Union(box2, moved)) == B.Height(box1) + B.Height(box2)
  {
  }

  /** `a.beside(b)` with boxes `box1` and `box2`: `b`'s box moves so that
      its left edge is `a`'s right edge, keeping its vertical extent; the
      result's box is the union, starting at `a`'s left edge and as wide as
      both; `a` stays, `b` is translated and, unless it reaches the empty
      diagram, has the moved box; `a`'s shapes come before `b`'s. */
  lemma BesideBox(a: Diagram, b: Diagram, box1: B.BoundingBox, box2: B.BoundingBox)
    requires GetBoundingBox(a, T.Identity) == Ok(box1) && GetBoundingBox(b, T.Identity) == Ok(box2)
    ensures var dx := B.Right(box1) - B.Left(box2);
            var moved := B.Shift(box2, Vector(dx, 0.0));
            var r := Beside(a, b);
            r.Ok? && B.ApplyTransform(box2, T.Translate(dx, 0.0)) == moved &&
            B.Left(moved) == B.Right(box1) && B.Width(moved) == B.Width(box2) &&
            B.Top(moved) == B.Top(box2) && B.Bottom(moved) == B.Bottom(box2) &&
            GetBoundingBox(r.value, T.Identity) == Ok(B.Union(box1, moved)) &&
            B.Left(B.Union(box1, moved)) == B.Left(box1) &&
            B.Width(B.Union(box1, moved)) == B.Width(box1) + B.Width(box2) &&
            r.value == Compose(B.Union(box1, moved), a, ApplyTransform(T.Translate(dx, 0.0), b)) &&
            (!Base(b).Empty? ==> GetBoundingBox(r.value.diagram2, T.Identity) == Ok(moved)) &&
            ShapesOf(r.value) == ShapesOf(a) + ShapesOf(b)
  {
    var v := Vector(B.Right(box1) - B.Left(box2), 0.0);
    BesideMoves(a, b, box1, box2);
    BesideGeometry(box1, box2);
    MoveSecondBox(box1, a, box2, b, v);
  }

  lemma BesideMoves(a: Diagram, b: Diagram, box1: B.BoundingBox, box2: B.BoundingBox)
    requires GetBoundingBox(a, T.Identity) == Ok(box1) && GetBoundingBox(b, T.Identity) == Ok(box2)
    ensures Beside(a, b) == Ok(MoveSecond(box1, a, box2, b, Vector(B.Right(box1) - B.Left(box2), 0.0)))
  {
  }

  /** `a.above(b)` with boxes `box1` and `box2`: `b`'s box moves so that its
      top edge is `a`'s bottom edge, keeping its horizontal extent; the
      result's box is the union, starting at `a`'s top edge and as tall as
      both; `a` stays, `b` is translated; `a`'s shapes come before `b`'s. */
  lemma AboveBox(a: Diagram, b: Diagram, box1: B.BoundingBox, box2: B.BoundingBox)
    requires GetBoundingBox(a, T.Identity) == Ok(box1) && GetBoundingBox(b, T.Identity) == Ok(box2)
    ensures var dy := B.Bottom(box1) - B.Top(box2);
            var moved := B.Shift(box2, Vector(0.0, dy));
            var r := Above(a, b);
            r.Ok? && B.ApplyTransform(box2, T.Translate(0.0, dy)) == moved &&
            B.Top(moved) == B.Bottom(box1) && B.Height(moved) == B.Height(box2) &&
            B.Left(moved) == B.Left(box2) && B.Right(moved) == B.Right(box2) &&
            GetBoundingBox(r.value, T.Identity) == Ok(B.Union(box1, moved)) &&
            B.Top(B.Union(box1, moved)) == B.Top(box1) &&
            B.Height(B.Union(box1, moved)) == B.Height(box1) + B.Height(box2) &&
            r.value == Compose(B.Union(box1, moved), a, ApplyTransform(T.Translate(0.0, dy), b)) &&
            (!Base(b).Empty? ==> GetBoundingBox(r.value.diagram2, T.Identity) == Ok(moved)) &&
            ShapesOf(r.value) == ShapesOf(a) + ShapesOf(b)
  {
    var v := Vector(0.0, B.Bottom(box1) - B.Top(box2));
    AboveMoves(a, b, box1, box2);
    AboveGeometry(box1, box2);
    MoveSecondBox(box1, a, box2, b, v);
  }

  lemma AboveMoves(a: Diagram, b: Diagram, box1: B.BoundingBox, box2: B.BoundingBox)
    requires GetBoundingBox(a, T.Identity) == Ok(box1) && GetBoundingBox(b, T.Identity) == Ok(box2)
    ensures Above(a, b) == Ok(MoveSecond(box1, a, box2, b, Vector(0.0, B.Bottom(box1) - B.Top(box2))))
  {
  }

  /** `a.above2(b)` with boxes `box1` and `box2`: `a`'s box moves so that its
      bottom edge is `b`'s top edge, keeping its horizontal extent; the
      result's box is the union, ending at `b`'s bottom edge and as tall as
      both; `a` is translated, `b` stays; `a`'s shapes come before `b`'s. */
  lemma Above2Box(a: Diagram, b: Diagram, box1: B.BoundingBox, box2: B.BoundingBox)
    requires GetBoundingBox(a, T.Identity) == Ok(box1) && GetBoundingBox(b, T.Identity) == Ok(box2)
    ensures var dy := B.Bottom(box1) - B.Top(box2);
            var moved := B.Shift(box1, Vector(0.0, -dy));
            var r := Above2(a, b);
            r.Ok? && B.ApplyTransform(box1, T.Translate(0.0, -dy)) == moved &&
            B.Bottom(moved) == B.Top(box2) && B.Height(moved) == B.Height(box1) &&
            B.Left(moved) == B.Left(box1) && B.Right(moved) == B.Right(box1) &&
            GetBoundingBox(r.value, T.Identity) == Ok(B.Union(box2, moved)) &&
            B.Bottom(B.Union(box2, moved)) == B.Bottom(box2) &&
            B.Height(B.Union(box2, moved)) == B.Height(box1) + B.Height(box2) &&
            r.value == Compose(B.Union(box2, moved), ApplyTransform(T.Translate(0.0, -dy), a), b) &&
            (!Base(a).Empty? ==> GetBoundingBox(r.value.diagram1, T.Identity) == Ok(moved)) &&
            ShapesOf(r.value) == ShapesOf(a) + ShapesOf(b)
  {
    var v := Vector(0.0, -(B.Bottom(box1) - B.Top(box2)));
    Above2Moves(a, b, box1, box2);
    Above2Geometry(box1, box2);
    MoveFirstBox(box1, a, box2, b, v);
  }

  lemma Above2Moves(a: Diagram, b: Diagram, box1: B.BoundingBox, box2: B.BoundingBox)
    requires GetBoundingBox(a, T.Identity) == Ok(box1) && GetBoundingBox(b, T.Identity) == Ok(box2)
    ensures Above2(a, b) == Ok(MoveFirst(box1, a, box2, b, Vector(0.0, -(B.Bottom(box1) - B.Top(box2)))))
  {
  }

  /** `a.at_center(b)` with boxes `box1` and `box2`: `b`'s box moves by the
      vector to `a`'s center, so a `b` centred on the origin ends up centred
      on `a`; the result's box is the union; `a` stays, `b` is translated. */
  lemma AtCenterBox(a: Diagram, b: Diagram, box1: B.BoundingBox, box2: B.BoundingBox)
    requires GetBoundingBox(a, T.Identity) == Ok(box1) && GetBoundingBox(b, T.Identity) == Ok(box2)
    ensures var c := B.Center(box1);
            var moved := B.Shift(box2, Vector(c.x, c.y));
            var r := AtCenter(a, b);
            r.Ok? && B.ApplyTransform(box2, T.Translate(c.x, c.y)) == moved &&
            B.Center(moved) == Point(B.Center(box2).x + c.x, B.Center(box2).y + c.y) &&
            (B.Center(box2) == ORIGIN ==> B.Center(moved) == c) &&
            GetBoundingBox(r.value, T.Identity) == Ok(B.Union(box1, moved)) &&
            r.value == Compose(B.Union(box1, moved), a, ApplyTransform(T.Translate(c.x, c.y), b)) &&
            (!Base(b).Empty? ==> GetBoundingBox(r.value.diagram2, T.Identity) == Ok(moved)) &&
            ShapesOf(r.value) == ShapesOf(a) + ShapesOf(b)
  {
    var c := B.Center(box1);
    var v := Vector(c.x, c.y);
    AtCenterMoves(a, b, box1, box2);
    MoveSecondBox(box1, a, box2, b, v);
  }

  lemma AtCenterMoves(a: Diagram, b: Diagram, box1: B.BoundingBox, box2: B.BoundingBox)
    requires GetBoundingBox(a, T.Identity) == Ok(box1) && GetBoundingBox(b, T.Identity) == Ok(box2)
    ensures AtCenter(a, b) == Ok(MoveSecond(box1, a, box2, b, Vector(B.Center(box1).x, B.Center(box1).y)))
  {
  }

  // Alignment: each moves the diagram by minus one of its own edges or its
  // center.

  /** `align_t()`. */
  function AlignT(d: Diagram): Result<Diagram> {
    var box :- GetBoundingBox(d, T.Identity);
    Ok(ApplyTransform(T.Translate(0.0, -B.Top(box)), d))
  }

  /** `align_b()`. */
  function AlignB(d: Diagram): Result<Diagram> {
    var box :- GetBoundingBox(d, T.Identity);
    Ok(ApplyTransform(T.Translate(0.0, -B.Bottom(box)), d))
  }

  /** `align_r()`. */
  function AlignR(d: Diagram): Result<Diagram> {
    var box :- GetBoundingBox(d, T.Identity);
    Ok(ApplyTransform(T.Translate(-B.Right(box), 0.0), d))
  }

  /** `align_l()`. */
  function AlignL(d: Diagram): Result<Diagram> {
    var box :- GetBoundingBox(d, T.Identity);
    Ok(ApplyTransform(T.Translate(-B.Left(box), 0.0), d))
  }

  /** `center_xy()`. */
  function CenterXY(d: Diagram): Result<Diagram> {
    var box :- GetBoundingBox(d, T.Identity);
    var c := B.Center(box);
    Ok(ApplyTransform(T.Translate(-c.x, -c.y), d))
  }

  /** Centering and aligning fail exactly when the box does. */
  lemma AlignFails(d: Diagram)
    ensures CenterXY(d).Err? <==> BoxFails(d)
    ensures AlignT(d).Err? <==> BoxFails(d)
    ensures AlignB(d).Err? <==> BoxFails(d)
    ensures AlignR(d).Err? <==> BoxFails(d)
    ensures AlignL(d).Err? <==> BoxFails(d)
  {
  }

  /** The centred diagram's box has its center on the origin and the width
      and height of `d`'s box. */
  lemma CenterXYBox(d: Diagram, box: B.BoundingBox)
    requires GetBoundingBox(d, T.Identity) == Ok(box)
    ensures var r := CenterXY(d);
            r.Ok? && GetBoundingBox(r.value, T.Identity).Ok? &&
            B.Center(GetBoundingBox(r.value, T.Identity).value) == ORIGIN &&
            B.Width(GetBoundingBox(r.value, T.Identity).value) == B.Width(box) &&
            B.Height(GetBoundingBox(r.value, T.Identity).value) == B.Height(box)
  {
    var c := B.Center(box);
    assert CenterXY(d) == Ok(ApplyTransform(T.Translate(-c.x, -c.y), d));
    TranslatedBoxOk(d, box, Vector(-c.x, -c.y));
  }

  /** `align_t` puts the top edge of the box on the x axis and `align_b`
      the bottom edge; both keep the left and right edges and the height. */
  lemma AlignVerticalBox(d: Diagram, box: B.BoundingBox)
    requires GetBoundingBox(d, T.Identity) == Ok(box)
    ensures var r := AlignT(d);
            r.Ok? && GetBoundingBox(r.value, T.Identity).Ok? &&
            var rb := GetBoundingBox(r.value, T.Identity).value;
            B.Top(rb) == 0.0 && B.Height(rb) == B.Height(box) &&
            B.Left(rb) == B.Left(box) && B.Right(rb) == B.Right(box)
    ensures var r := AlignB(d);
            r.Ok? && GetBoundingBox(r.value, T.Identity).Ok? &&
            var rb := GetBoundingBox(r.value, T.Identity).value;
            B.Bottom(rb) == 0.0 && B.Height(rb) == B.Height(box) &&
            B.Left(rb) == B.Left(box) && B.Right(rb) == B.Right(box)
  {
    AlignTBox(d, box);
    AlignBBox(d, box);
  }

  /** `align_r` puts the right edge of the box on the y axis and `align_l`
      the left edge; both keep the top and bottom edges and the width. */
  lemma AlignHorizontalBox(d: Diagram, box: B.BoundingBox)
    requires GetBoundingBox(d, T.Identity) == Ok(box)
    ensures var r := AlignR(d);
            r.Ok? && GetBoundingBox(r.value, T.Identity).Ok? &&
            var rb := GetBoundingBox(r.value, T.Identity).value;
            B.Right(rb) == 0.0 && B.Width(rb) == B.Width(box) &&
            B.Top(rb) == B.Top(box) && B.Bottom(rb) == B.Bottom(box)
    ensures var r := AlignL(d);
            r.Ok? && GetBoundingBox(r.value, T.Identity).Ok? &&
            var rb := GetBoundingBox(r.value, T.Identity).value;
            B.Left(rb) == 0.0 && B.Width(rb) == B.Width(box) &&
            B.Top(rb) == B.Top(box) && B.Bottom(rb) == B.Bottom(box)
  {
    AlignRBox(d, box);
    AlignLBox(d, box);
  }

  lemma AlignTBox(d: Diagram, box: B.BoundingBox)
    requires GetBoundingBox(d, T.Identity) == Ok(box)
    ensures var r := AlignT(d);
            r.Ok? && GetBoundingBox(r.value, T.Identity).Ok? &&
            var rb := GetBoundingBox(r.value, T.Identity).value;
            B.Top(rb) == 0.0 && B.Height(rb) == B.Height(box) &&
            B.Left(rb) == B.Left(box) && B.Right(rb) == B.Right(box)
  {
    assert AlignT(d) == Ok(ApplyTransform(T.Translate(0.0, -B.Top(box)), d));
    TranslatedBoxOk(d, box, Vector(0.0, -B.Top(box)));
  }

  lemma AlignBBox(d: Diagram, box: B.BoundingBox)
    requires GetBoundingBox(d, T.Identity) == Ok(box)
    ensures var r := AlignB(d);
            r.Ok? && GetBoundingBox(r.value, T.Identity).Ok? &&
            var rb := GetBoundingBox(r.value, T.Identity).value;
            B.Bottom(rb) == 0.0 && B.Height(rb) == B.Height(box) &&
            B.Left(rb) == B.Left(box) && B.Right(rb) == B.Right(box)
  {
    assert AlignB(d) == Ok(ApplyTransform(T.Translate(0.0, -B.Bottom(box)), d));
    TranslatedBoxOk(d, box, Vector(0.0, -B.Bottom(box)));
  }

  lemma AlignRBox(d: Diagram, box: B.BoundingBox)
    requires GetBoundingBox(d, T.Identity) == Ok(box)
    ensures var r := AlignR(d);
            r.Ok? && GetBoundingBox(r.value, T.Identity).Ok? &&
            var rb := GetBoundingBox(r.value, T.Identity).value;
            B.Right(rb) == 0.0 && B.Width(rb) == B.Width(box) &&
            B.Top(rb) == B.Top(box) && B.Bottom(rb) == B.Bottom(box)
  {
    assert AlignR(d) == Ok(ApplyTransform(T.Translate(-B.Right(box), 0.0), d));
    TranslatedBoxOk(d, box, Vector(-B.Right(box), 0.0));
  }

  lemma AlignLBox(d: Diagram, box: B.BoundingBox)
    requires GetBoundingBox(d, T.Identity) == Ok(box)
    ensures var r := AlignL(d);
            r.Ok? && GetBoundingBox(r.value, T.Identity).Ok? &&
            var rb := GetBoundingBox(r.value, T.Identity).value;
            B.Left(rb) == 0.0 && B.Width(rb) == B.Width(box) &&
            B.Top(rb) == B.Top(box) && B.Bottom(rb) == B.Bottom(box)
  {
    assert AlignL(d) == Ok(ApplyTransform(T.Translate(-B.Left(box), 0.0), d));
    TranslatedBoxOk(d, box, Vector(-B.Left(box), 0.0));
  }

  /** `align_tl()`: `align_t()`, then `align_l()`. */
  function AlignTL(d: Diagram): Result<Diagram> {
    var d1 :- AlignT(d);
    AlignL(d1)
  }

  /** `align_br()`: `align_b()`, then `align_r()`. */
  function AlignBR(d: Diagram): Result<Diagram> {
    var d1 :- AlignB(d);
    AlignR(d1)
  }

  /** `align_tr()`: `align_t()`, then `align_r()`. */
  function AlignTR(d: Diagram): Result<Diagram> {
    var d1 :- AlignT(d);
    AlignR(d1)
  }

  /** `align_bl()`: `align_b()`, then `align_l()`. */
  function AlignBL(d: Diagram): Result<Diagram> {
    var d1 :- AlignB(d);
    AlignL(d1)
  }

  /** The corner alignments fail exactly when the box does; otherwise they
      put the named corner of the box on the origin and keep its size. */
  lemma AlignCornerBox(d: Diagram, box: B.BoundingBox)
    requires GetBoundingBox(d, T.Identity) == Ok(box)
    ensures var r := AlignTL(d);
            r.Ok? && GetBoundingBox(r.value, T.Identity).Ok? &&
            var rb := GetBoundingBox(r.value, T.Identity).value;
            rb.tl == ORIGIN && B.Width(rb) == B.Width(box) && B.Height(rb) == B.Height(box)
    ensures var r := AlignBR(d);
            r.Ok? && GetBoundingBox(r.value, T.Identity).Ok? &&
            var rb := GetBoundingBox(r.value, T.Identity).value;
            rb.br == ORIGIN && B.Width(rb) == B.Width(box) && B.Height(rb) == B.Height(box)
    ensures var r := AlignTR(d);
            r.Ok? && GetBoundingBox(r.value, T.Identity).Ok? &&
            var rb := GetBoundingBox(r.value, T.Identity).value;
            B.Tr(rb) == ORIGIN && B.Width(rb) == B.Width(box) && B.Height(rb) == B.Height(box)
    ensures var r := AlignBL(d);
            r.Ok? && GetBoundingBox(r.value, T.Identity).Ok? &&
            var rb := GetBoundingBox(r.value, T.Identity).value;
            B.Bl(rb) == ORIGIN && B.Width(rb) == B.Width(box) && B.Height(rb) == B.Height(box)
  {
    AlignVerticalBox(d, box);
    var dt, db := AlignT(d).value, AlignB(d).value;
    AlignHorizontalBox(dt, GetBoundingBox(dt, T.Identity).value);
    AlignHorizontalBox(db, GetBoundingBox(db, T.Identity).value);
  }

  /** A corner alignment fails exactly when the box does. */
  lemma AlignCornerFails(d: Diagram)
    ensures AlignTL(d).Err? <==> BoxFails(d)
    ensures AlignBR(d).Err? <==> BoxFails(d)
    ensures AlignTR(d).Err? <==> BoxFails(d)
    ensures AlignBL(d).Err? <==> BoxFails(d)
  {
    AlignFails(d);
    if !BoxFails(d) {
      AlignFails(AlignT(d).value);
      AlignFails(AlignB(d).value);
    }
  }

  // Padding: a Compose of the diagram with the empty diagram under a box
  // whose limits are moved outwards.

  /** `pad_l(extra)`. */
  function PadL(d: Diagram, extra: real): Result<Diagram> {
    var box :- GetBoundingBox(d, T.Identity);
    Ok(Compose(B.FromLimits(box.tl.x - extra, box.tl.y, box.br.x, box.br.y), d, Empty))
  }

  /** `pad_t(extra)`. */
  function PadT(d: Diagram, extra: real): Result<Diagram> {
    var box :- GetBoundingBox(d, T.Identity);
    Ok(Compose(B.FromLimits(box.tl.x, box.tl.y - extra, box.br.x, box.br.y), d, Empty))
  }

  /** `pad_r(extra)`. */
  function PadR(d: Diagram, extra: real): Result<Diagram> {
    var box :- GetBoundingBox(d, T.Identity);
    Ok(Compose(B.FromLimits(box.tl.x, box.tl.y, box.br.x + extra, box.br.y), d, Empty))
  }

  /** `pad_b(extra)`. */
  function PadB(d: Diagram, extra: real): Result<Diagram> {
    var box :- GetBoundingBox(d, T.Identity);
    Ok(Compose(B.FromLimits(box.tl.x, box.tl.y, box.br.x, box.br.y + extra), d, Empty))
  }

  /** `pad(extra)`. */
  function Pad(d: Diagram, extra: real): Result<Diagram> {
    var box :- GetBoundingBox(d, T.Identity);
    Ok(Compose(B.FromLimits(box.tl.x - extra, box.tl.y - extra, box.br.x + extra, box.br.y + extra), d, Empty))
  }

  /** Padding fails exactly when the box does. */
  lemma PadFails(d: Diagram, e: real)
    ensures PadL(d, e).Err? <==> BoxFails(d)
    ensures PadT(d, e).Err? <==> BoxFails(d)
    ensures PadR(d, e).Err? <==> BoxFails(d)
    ensures PadB(d, e).Err? <==> BoxFails(d)
    ensures Pad(d, e).Err? <==> BoxFails(d)
  {
  }

  /** `pad_l` caches the box with its left edge moved out by `extra`; the
      padded diagram reports that box, put right side out when a negative
      `extra` turns it inside out, and draws the same primitives as `d`. */
  lemma PadLBox(d: Diagram, box: B.BoundingBox, e: real)
    requires GetBoundingBox(d, T.Identity) == Ok(box)
    ensures var lim := B.FromLimits(B.Left(box) - e, B.Top(box), B.Right(box), B.Bottom(box));
            PadL(d, e) == Ok(Compose(lim, d, Empty)) &&
            GetBoundingBox(PadL(d, e).value, T.Identity) == Ok(B.Normalize(lim)) &&
            (e >= 0.0 ==> GetBoundingBox(PadL(d, e).value, T.Identity) == Ok(lim)) &&
            ToList(PadL(d, e).value, T.Identity) == ToList(d, T.Identity)
  {
    var lim := B.FromLimits(B.Left(box) - e, B.Top(box), B.Right(box), B.Bottom(box));
    assert PadL(d, e) == Ok(Compose(lim, d, Empty));
    CachedBox(lim, d, Empty);
    assert ToList(d, T.Identity) + [] == ToList(d, T.Identity);
  }

  /** `pad_t`: the top edge moves out by `extra`; the primitives are the same. */
  lemma PadTBox(d: Diagram, box: B.BoundingBox, e: real)
    requires GetBoundingBox(d, T.Identity) == Ok(box)
    ensures var lim := B.FromLimits(B.Left(box), B.Top(box) - e, B.Right(box), B.Bottom(box));
            PadT(d, e) == Ok(Compose(lim, d, Empty)) &&
            GetBoundingBox(PadT(d, e).value, T.Identity) == Ok(B.Normalize(lim)) &&
            (e >= 0.0 ==> GetBoundingBox(PadT(d, e).value, T.Identity) == Ok(lim)) &&
            ToList(PadT(d, e).value, T.Identity) == ToList(d, T.Identity)
  {
    var lim := B.FromLimits(B.Left(box), B.Top(box) - e, B.Right(box), B.Bottom(box));
    assert PadT(d, e) == Ok(Compose(lim, d, Empty));
    CachedBox(lim, d, Empty);
    assert ToList(d, T.Identity) + [] == ToList(d, T.Identity);
  }

  /** `pad_r`: the right edge moves out by `extra`; the primitives are the same. */
  lemma PadRBox(d: Diagram, box: B.BoundingBox, e: real)
    requires GetBoundingBox(d, T.Identity) == Ok(box)
    ensures var lim := B.FromLimits(B.Left(box), B.Top(box), B.Right(box) + e, B.Bottom(box));
            PadR(d, e) == Ok(Compose(lim, d, Empty)) &&
            GetBoundingBox(PadR(d, e).value, T.Identity) == Ok(B.Normalize(lim)) &&
            (e >= 0.0 ==> GetBoundingBox(PadR(d, e).value, T.Identity) == Ok(lim)) &&
            ToList(PadR(d, e).value, T.Identity) == ToList(d, T.Identity)
  {
    var lim := B.FromLimits(B.Left(box), B.Top(box), B.Right(box) + e, B.Bottom(box));
    assert PadR(d, e) == Ok(Compose(lim, d, Empty));
    CachedBox(lim, d, Empty);
    assert ToList(d, T.Identity) + [] == ToList(d, T.Identity);
  }

  /** `pad_b`: the bottom edge moves out by `extra`; the primitives are the same. */
  lemma PadBBox(d: Diagram, box: B.BoundingBox, e: real)
    requires GetBoundingBox(d, T.Identity) == Ok(box)
    ensures var lim := B.FromLimits(B.Left(box), B.Top(box), B.Right(box), B.Bottom(box) + e);
            PadB(d, e) == Ok(Compose(lim, d, Empty)) &&
            GetBoundingBox(PadB(d, e).value, T.Identity) == Ok(B.Normalize(lim)) &&
            (e >= 0.0 ==> GetBoundingBox(PadB(d, e).value, T.Identity) == Ok(lim)) &&
            ToList(PadB(d, e).value, T.Identity) == ToList(d, T.Identity)
  {
    var lim := B.FromLimits(B.Left(box), B.Top(box), B.Right(box), B.Bottom(box) + e);
    assert PadB(d, e) == Ok(Compose(lim, d, Empty));
    CachedBox(lim, d, Empty);
    assert ToList(d, T.Identity) + [] == ToList(d, T.Identity);
  }

  /** `pad`: all four edges move out by `extra`, so a padding that is not
      negative adds `2 * extra` to the width and the height, keeping the
      center. */
  lemma PadAllBox(d: Diagram, box: B.BoundingBox, e: real)
    requires GetBoundingBox(d, T.Identity) == Ok(box)
    ensures var lim := B.FromLimits(B.Left(box) - e, B.Top(box) - e, B.Right(box) + e, B.Bottom(box) + e);
            Pad(d, e) == Ok(Compose(lim, d, Empty)) &&
            GetBoundingBox(Pad(d, e).value, T.Identity) == Ok(B.Normalize(lim)) &&
            (e >= 0.0 ==> GetBoundingBox(Pad(d, e).value, T.Identity) == Ok(lim) &&
                          B.Width(lim) == B.Width(box) + 2.0 * e &&
                          B.Height(lim) == B.Height(box) + 2.0 * e &&
                          B.Center(lim) == B.Center(box))
  {
    var lim := B.FromLimits(B.Left(box) - e, B.Top(box) - e, B.Right(box) + e, B.Bottom(box) + e);
    assert Pad(d, e) == Ok(Compose(lim, d, Empty));
    CachedBox(lim, d, Empty);
  }

  // Scaling to a size

  /** `scale_uniform_to_x(x)`: scale both axes by `x / width`; a box of no
      width divides by zero. */
  function ScaleUniformToX(d: Diagram, x: real): (r: Result<Diagram>)
    ensures r.Err? <==> BoxFails(d) || B.Width(GetBoundingBox(d, T.Identity).value) == 0.0
    ensures r.Err? && !BoxFails(d) ==> r.error == DivisionByZero
    ensures r.Ok? ==> r.value.ApplyTransform? && r.value.diagram == d &&
                      r.value.transform.Scale? && r.value.transform.ax == r.value.transform.ay &&
                      r.value.transform.ax * B.Width(GetBoundingBox(d, T.Identity).value) == x
  {
    var box :- GetBoundingBox(d, T.Identity);
    if B.Width(box) == 0.0 then Err(DivisionByZero)
    else
      var a := x / B.Width(box);
      Ok(ApplyTransform(T.Scale(a, a), d))
  }

  /** `scale_uniform_to_y(y)`: scale both axes by `y / height`; a box of no
      height divides by zero. */
  function ScaleUniformToY(d: Diagram, y: real): (r: Result<Diagram>)
    ensures r.Err? <==> BoxFails(d) || B.Height(GetBoundingBox(d, T.Identity).value) == 0.0
    ensures r.Err? && !BoxFails(d) ==> r.error == DivisionByZero
    ensures r.Ok? ==> r.value.ApplyTransform? && r.value.diagram == d &&
                      r.value.transform.Scale? && r.value.transform.ax == r.value.transform.ay &&
                      r.value.transform.ax * B.Height(GetBoundingBox(d, T.Identity).value) == y
  {
    var box :- GetBoundingBox(d, T.Identity);
    if B.Height(box) == 0.0 then Err(DivisionByZero)
    else
      var a := y / B.Height(box);
      Ok(ApplyTransform(T.Scale(a, a), d))
  }
}
