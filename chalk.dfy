/** The package's top-level functions (chalk/__init__.py).

    Constructors wrap a shape as a primitive with the default style and no
    transform. The list combinators fold the placing combinators over a
    list: `concat` sets everything where it is, `hcat` and `vcat` line
    diagrams up left to right or top to bottom with an optional strut
    between neighbours, and `place_at` moves each diagram to its point.
    `connect_outer` draws a line between two named parts.
 */
module Chalk {

  import opened Wrappers
  import opened Points
  import T = Transforms
  import B = BoundingBoxes
  import S = Styles
  import Sh = Shapes
  import C = Core

  // constructors

  /** `Primitive.from_shape(shape)`. */
  function FromShape(shape: Sh.Shape): C.Diagram {
    C.Primitive(shape, S.Default(), T.Identity)
  }

  /** A shape made into a diagram has the shape's box, put right side out,
      and fails exactly when the shape's box does. */
  lemma FromShapeBox(shape: Sh.Shape)
    ensures C.GetBoundingBox(FromShape(shape), T.Identity).Err? <==> Sh.ShapeBox(shape).Err?
    ensures Sh.ShapeBox(shape).Ok? ==>
              C.GetBoundingBox(FromShape(shape), T.Identity) == Ok(B.Normalize(Sh.ShapeBox(shape).value))
    ensures C.ShapesOf(FromShape(shape)) == [shape]
  {
    if Sh.ShapeBox(shape).Ok? {
      var sb := Sh.ShapeBox(shape).value;
      T.ComposeIdentity(T.Identity);
      B.ApplyCongruent(sb, T.Compose(T.Identity, T.Identity), T.Identity);
      B.ApplyIdentity(sb);
    }
  }

  /** `empty()`. */
  function EmptyDiagram(): C.Diagram {
    C.Empty
  }

  /** `make_path(coords, arrow)`. */
  function MakePath(coords: seq<(real, real)>, arrow: bool): C.Diagram {
    FromShape(Sh.FromListOfTuples(coords, arrow))
  }

  /** `circle(radius)`. */
  function Circle(radius: real): C.Diagram {
    FromShape(Sh.Circle(radius))
  }

  /** `rectangle(width, height, radius)`. */
  function Rectangle(width: real, height: real, radius: Option<real>): C.Diagram {
    FromShape(Sh.Rectangle(width, height, radius))
  }

  /** `square(side)`. */
  function Square(side: real): C.Diagram {
    FromShape(Sh.Rectangle(side, side, None))
  }

  /** `hrule(length)`. */
  function Hrule(length: real): C.Diagram {
    FromShape(Sh.Hrule(length))
  }

  /** `vrule(length)`. */
  function Vrule(length: real): C.Diagram {
    FromShape(Sh.Vrule(length))
  }

  /** `polygon(sides, radius, rotation)`. */
  method Polygon(sides: int, radius: real, rotation: real, cos: real -> real, sin: real -> real)
    returns (r: Result<C.Diagram>)
    ensures sides == 0 ==> r == Err(DivisionByZero)
    ensures sides != 0 ==>
              r == Ok(FromShape(Sh.FromListOfTuples(Sh.PolygonCoords(sides, radius, rotation, cos, sin), false)))
  {
    var shape :- Sh.Polygon(sides, radius, rotation, cos, sin);
    r := Ok(FromShape(shape));
  }

  /** `regular_polygon(sides, side_length)`. */
  method RegularPolygon(sides: int, sideLength: real, cos: real -> real, sin: real -> real)
    returns (r: Result<C.Diagram>)
    ensures sides == 0 || sin(T.PI / (sides as real)) == 0.0 ==> r == Err(DivisionByZero)
    ensures sides != 0 && sin(T.PI / (sides as real)) != 0.0 ==>
              r == Ok(FromShape(Sh.FromListOfTuples(
                     Sh.PolygonCoords(sides, sideLength / (2.0 * sin(T.PI / (sides as real))), 0.0, cos, sin), false)))
  {
    var shape :- Sh.RegularPolygon(sides, sideLength, cos, sin);
    r := Ok(FromShape(shape));
  }

  /** `triangle(width)`: the regular polygon with three sides. */
  method Triangle(width: real, cos: real -> real, sin: real -> real) returns (r: Result<C.Diagram>)
    ensures sin(T.PI / 3.0) == 0.0 ==> r == Err(DivisionByZero)
    ensures sin(T.PI / 3.0) != 0.0 ==>
              r == Ok(FromShape(Sh.FromListOfTuples(
                     Sh.PolygonCoords(3, width / (2.0 * sin(T.PI / 3.0)), 0.0, cos, sin), false)))
  {
    r := RegularPolygon(3, width, cos, sin);
  }

  /** The boxes of the constructed diagrams: a circle of radius `r >= 0`
      spans `-r` to `r` on both axes; a rectangle or square of sizes that are
      not negative is centred on the origin with those sizes; a rule is
      centred on the origin, as long as its length, and flat across. */
  lemma ConstructorBoxes(radius: real, width: real, height: real, length: real, corner: Option<real>)
    ensures radius >= 0.0 ==>
              C.GetBoundingBox(Circle(radius), T.Identity) == Ok(B.FromLimits(-radius, -radius, radius, radius))
    ensures var box := C.GetBoundingBox(Rectangle(width, height, corner), T.Identity);
            width >= 0.0 && height >= 0.0 ==>
              box.Ok? && B.Center(box.value) == ORIGIN &&
              B.Width(box.value) == width && B.Height(box.value) == height
    ensures var box := C.GetBoundingBox(Square(width), T.Identity);
            width >= 0.0 ==>
              box.Ok? && B.Center(box.value) == ORIGIN &&
              B.Width(box.value) == width && B.Height(box.value) == width
    ensures var box := C.GetBoundingBox(Hrule(length), T.Identity);
            box.Ok? && B.Center(box.value) == ORIGIN &&
            B.Width(box.value) == Sh.Abs(length) && B.Height(box.value) == 0.0
    ensures var box := C.GetBoundingBox(Vrule(length), T.Identity);
            box.Ok? && B.Center(box.value) == ORIGIN &&
            B.Width(box.value) == 0.0 && B.Height(box.value) == Sh.Abs(length)
  {
    Sh.ShapeBoxGeometry(Sh.Circle(radius));
    Sh.ShapeBoxGeometry(Sh.Rectangle(width, height, corner));
    Sh.ShapeBoxGeometry(Sh.Rectangle(width, width, None));
    Sh.RulesGeometry(length);
    FromShapeBox(Sh.Circle(radius));
    FromShapeBox(Sh.Rectangle(width, height, corner));
    FromShapeBox(Sh.Rectangle(width, width, None));
    FromShapeBox(Sh.Hrule(length));
    FromShapeBox(Sh.Vrule(length));
  }

  // concat

  /** Whether some diagram of the list has a box that fails. */
  predicate AnyFails(ds: seq<C.Diagram>) {
    exists i :: 0 <= i < |ds| && C.BoxFails(ds[i])
  }

  /** `concat(diagrams)`: `reduce(atop, diagrams, empty())`, the left fold
      of `atop` that starts from the empty diagram. */
  function Concat(ds: seq<C.Diagram>): (r: Result<C.Diagram>)
    ensures r.Ok? ==> !C.BoxFails(r.value)
    decreases |ds|
  {
    if |ds| == 0 then Ok(C.Empty)
    else
      var init :- Concat(ds[..|ds| - 1]);
      C.Atop(init, ds[|ds| - 1])
  }

  /** `concat` fails exactly when one of the diagrams has a box that fails;
      `concat([])` is the empty diagram. */
  lemma {:induction false} ConcatFails(ds: seq<C.Diagram>)
    ensures Concat(ds).Err? <==> AnyFails(ds)
    ensures Concat([]) == Ok(C.Empty)
    decreases |ds|
  {
    if |ds| > 0 {
      var init := ds[..|ds| - 1];
      ConcatFails(init);
      if Concat(init).Ok? {
        C.AtopBox(Concat(init).value, ds[|ds| - 1]);
      }
      if AnyFails(ds) {
        var i :| 0 <= i < |ds| && C.BoxFails(ds[i]);
        if i < |ds| - 1 {
          assert C.BoxFails(init[i]);
        }
      }
      if AnyFails(init) {
        var i :| 0 <= i < |init| && C.BoxFails(init[i]);
        assert C.BoxFails(ds[i]);
      }
    }
  }

  /** The primitives of each diagram at the identity, one list after the
      other. */
  function AllPrimitives(ds: seq<C.Diagram>): seq<C.Diagram>
    decreases |ds|
  {
    if |ds| == 0 then [] else AllPrimitives(ds[..|ds| - 1]) + C.ToList(ds[|ds| - 1], T.Identity)
  }

  /** The box of each diagram, or the origin box for one that fails. */
  function BoxOf(d: C.Diagram): B.BoundingBox {
    var r := C.GetBoundingBox(d, T.Identity);
    if r.Ok? then r.value else B.Empty()
  }

  /** The union of the origin box and the box of every diagram. */
  function UnionOf(ds: seq<C.Diagram>): (r: B.BoundingBox)
    ensures B.Proper(r)
    decreases |ds|
  {
    if |ds| == 0 then B.Empty() else B.Union(UnionOf(ds[..|ds| - 1]), BoxOf(ds[|ds| - 1]))
  }

  /** The union covers the origin and every box, and lies inside every box
      that covers the origin and every box. */
  lemma {:induction false} UnionOfTight(ds: seq<C.Diagram>, c: B.BoundingBox)
    ensures B.Contains(UnionOf(ds), ORIGIN)
    ensures forall i :: 0 <= i < |ds| ==> B.Within(BoxOf(ds[i]), UnionOf(ds))
    ensures B.Contains(c, ORIGIN) && (forall i :: 0 <= i < |ds| ==> B.Within(BoxOf(ds[i]), c)) ==>
              B.Within(UnionOf(ds), c)
    decreases |ds|
  {
    if |ds| > 0 {
      var init := ds[..|ds| - 1];
      UnionOfTight(init, c);
      var u := UnionOf(init);
      var last := BoxOf(ds[|ds| - 1]);
      forall i | 0 <= i < |ds|
        ensures B.Within(BoxOf(ds[i]), UnionOf(ds))
      {
        if i < |ds| - 1 {
          assert BoxOf(init[i]) == BoxOf(ds[i]);
        }
      }
      if B.Contains(c, ORIGIN) && (forall i :: 0 <= i < |ds| ==> B.Within(BoxOf(ds[i]), c)) {
        assert forall i :: 0 <= i < |init| ==> B.Within(BoxOf(init[i]), c) by {
          forall i | 0 <= i < |init|
            ensures B.Within(BoxOf(init[i]), c)
          {
            assert init[i] == ds[i];
          }
        }
        B.UnionLeast(u, last, c);
      }
    }
  }

  /** A `concat` that succeeds lists the primitives of the diagrams in
      order, and its box is the union of the origin box and their boxes. */
  lemma {:induction false} ConcatBox(ds: seq<C.Diagram>)
    requires Concat(ds).Ok?
    ensures C.ToList(Concat(ds).value, T.Identity) == AllPrimitives(ds)
    ensures C.GetBoundingBox(Concat(ds).value, T.Identity) == Ok(UnionOf(ds))
    decreases |ds|
  {
    if |ds| > 0 {
      var init := ds[..|ds| - 1];
      ConcatBox(init);
      C.AtopBox(Concat(init).value, ds[|ds| - 1]);
    }
  }

  // struts

  /** `hstrut(width)`: nothing for None, else an invisible spacer as wide
      as `width` and flat. */
  function HStrut(width: Option<real>): C.Diagram {
    if width.None? then C.Empty else FromShape(Sh.Spacer(width.value, 0.0))
  }

  /** `vstrut(height)`: nothing for None, else an invisible spacer as tall
      as `height` and thin. */
  function VStrut(height: Option<real>): C.Diagram {
    if height.None? then C.Empty else FromShape(Sh.Spacer(0.0, height.value))
  }

  /** The size a strut adds: none without a value. */
  function Gap(sep: Option<real>): real {
    if sep.None? then 0.0 else sep.value
  }

  /** A strut's box never fails and is centred on the origin; with a size
      that is not negative, a horizontal strut is that wide and flat, a
      vertical one that tall and thin. Without a size it is the empty
      diagram, whose box is the origin box. */
  lemma StrutBoxes(sep: Option<real>)
    ensures C.GetBoundingBox(HStrut(sep), T.Identity).Ok? && C.GetBoundingBox(VStrut(sep), T.Identity).Ok?
    ensures sep.None? ==> HStrut(sep) == C.Empty && VStrut(sep) == C.Empty
    ensures var h := C.GetBoundingBox(HStrut(sep), T.Identity).value;
            Gap(sep) >= 0.0 ==> B.Width(h) == Gap(sep) && B.Height(h) == 0.0 && B.Center(h) == ORIGIN
    ensures var v := C.GetBoundingBox(VStrut(sep), T.Identity).value;
            Gap(sep) >= 0.0 ==> B.Width(v) == 0.0 && B.Height(v) == Gap(sep) && B.Center(v) == ORIGIN
  {
    if sep.Some? {
      Sh.ShapeBoxGeometry(Sh.Spacer(sep.value, 0.0));
      Sh.ShapeBoxGeometry(Sh.Spacer(0.0, sep.value));
      FromShapeBox(Sh.Spacer(sep.value, 0.0));
      FromShapeBox(Sh.Spacer(0.0, sep.value));
    }
  }

  /** The struts' boxes do not fail, and a strut with a size that is not
      negative is as wide (or as tall) as that size. */
  lemma StrutSizes(sep: Option<real>)
    ensures !C.BoxFails(HStrut(sep)) && !C.BoxFails(VStrut(sep))
    ensures Gap(sep) >= 0.0 ==> B.Width(BoxOf(HStrut(sep))) == Gap(sep) && B.Height(BoxOf(VStrut(sep))) == Gap(sep)
  {
    if sep.Some? && sep.value >= 0.0 {
      SpacerSizes(sep.value);
    }
  }

  lemma SpacerSizes(w: real)
    requires w >= 0.0
    ensures B.Width(BoxOf(FromShape(Sh.Spacer(w, 0.0)))) == w
    ensures B.Height(BoxOf(FromShape(Sh.Spacer(0.0, w)))) == w
  {
    Sh.ShapeBoxGeometry(Sh.Spacer(w, 0.0));
    Sh.ShapeBoxGeometry(Sh.Spacer(0.0, w));
    FromShapeBox(Sh.Spacer(w, 0.0));
    FromShapeBox(Sh.Spacer(0.0, w));
  }

  // hcat and vcat

  /** A way of setting one diagram against another, such as `beside`. */
  type Placing = (C.Diagram, C.Diagram) -> Result<C.Diagram>

  /** `reduce(step, ds, acc)`: each diagram in turn is set against the value
      so far, first to last; the first failure ends the fold. */
  function Reduce(step: Placing, acc: C.Diagram, ds: seq<C.Diagram>): Result<C.Diagram>
    decreases |ds|
  {
    if |ds| == 0 then Ok(acc)
    else
      var next :- step(acc, ds[0]);
      Reduce(step, next, ds[1..])
  }

  /** The step `lambda a, b: place(place(a, m), b)`: `m` goes between the
      value so far and the next diagram. */
  function Between(place: Placing, m: C.Diagram): Placing {
    (a: C.Diagram, b: C.Diagram) =>
      if place(a, m).Err? then place(a, m) else place(place(a, m).value, b)
  }

  /** `hcat(diagrams, sep)`: empty for no diagrams, else
      `reduce(lambda a, b: a | hstrut(sep) | b, rest, first)`. */
  function HCat(ds: seq<C.Diagram>, sep: Option<real>): Result<C.Diagram> {
    if |ds| == 0 then Ok(C.Empty) else Reduce(Between(C.Beside, HStrut(sep)), ds[0], ds[1..])
  }

  /** `vcat(diagrams, sep)`: the same with `a / vstrut(sep) / b`. */
  function VCat(ds: seq<C.Diagram>, sep: Option<real>): Result<C.Diagram> {
    if |ds| == 0 then Ok(C.Empty) else Reduce(Between(C.Above, VStrut(sep)), ds[0], ds[1..])
  }

  /** The shapes a list of diagrams draws when each is preceded by the
      shapes `gap`. */
  function Joined(ds: seq<C.Diagram>, gap: seq<Sh.Shape>): seq<Sh.Shape>
    decreases |ds|
  {
    if |ds| == 0 then [] else gap + C.ShapesOf(ds[0]) + Joined(ds[1..], gap)
  }

  lemma ConcatAssoc<X>(a: seq<X>, g: seq<X>, c: seq<X>, j: seq<X>)
    ensures (a + g + c) + j == a + (g + c + j)
  {
  }

  /** The sum of `ext` over the boxes of the diagrams. */
  function SumOf(ext: B.BoundingBox -> real, ds: seq<C.Diagram>): real
    decreases |ds|
  {
    if |ds| == 0 then 0.0 else ext(BoxOf(ds[0])) + SumOf(ext, ds[1..])
  }

  /** `n` struts of size `g` laid end to end. */
  function Gaps(n: nat, g: real): real {
    if n == 0 then 0.0 else g + Gaps(n - 1, g)
  }

  /** The struts add up to `n` times the size of one. */
  lemma {:induction false} GapsTimes(n: nat, g: real)
    ensures Gaps(n, g) == (n as real) * g
  {
    if n > 0 {
      GapsTimes(n - 1, g);
      assert g + ((n - 1) as real) * g == (n as real) * g;
    }
  }

  /** `GapsTimes` for every count and size at once. */
  lemma GapsTimesAll()
    ensures forall n: nat, g: real :: Gaps(n, g) == (n as real) * g
  {
    forall n: nat, g: real
      ensures Gaps(n, g) == (n as real) * g
    {
      GapsTimes(n, g);
    }
  }

  /** The arithmetic of one fold step: the extent of the rest of the fold
      grows by the first step's gap and diagram. */
  lemma Regroup(r: real, next: real, start: real, g: real, first: real, sum: real, gaps: real)
    requires r == next + sum + gaps && next == start + g + first
    ensures r == start + (first + sum) + (g + gaps)
  {
  }

  /** A placing fails exactly when one of its two diagrams does, and what
      it returns has a box that does not fail. */
  ghost predicate FailsWithParts(place: Placing) {
    forall a: C.Diagram, b: C.Diagram ::
      (place(a, b).Err? <==> C.BoxFails(a) || C.BoxFails(b)) &&
      (place(a, b).Ok? ==> !C.BoxFails(place(a, b).value))
  }

  /** A placing that succeeds draws `a`'s shapes, then `gap`, then `b`'s. */
  ghost predicate Joins(place: Placing, gap: seq<Sh.Shape>) {
    forall a: C.Diagram, b: C.Diagram :: place(a, b).Ok? ==>
      C.ShapesOf(place(a, b).value) == C.ShapesOf(a) + gap + C.ShapesOf(b)
  }

  /** A placing that succeeds keeps `a`'s `edge` and adds `g` and `b`'s
      `ext` to `a`'s. */
  ghost predicate Extends(place: Placing, edge: B.BoundingBox -> real, ext: B.BoundingBox -> real, g: real) {
    forall a: C.Diagram, b: C.Diagram :: place(a, b).Ok? ==>
      edge(BoxOf(place(a, b).value)) == edge(BoxOf(a)) &&
      ext(BoxOf(place(a, b).value)) == ext(BoxOf(a)) + g + ext(BoxOf(b))
  }

  /** `beside` fails with its parts, draws `a` then `b`, keeps `a`'s left
      edge and adds the widths. */
  lemma BesidePlaces()
    ensures FailsWithParts(C.Beside) && Joins(C.Beside, [])
    ensures Extends(C.Beside, B.Left, B.Width, 0.0)
  {
    forall a: C.Diagram, b: C.Diagram
      ensures (C.Beside(a, b).Err? <==> C.BoxFails(a) || C.BoxFails(b)) &&
              (C.Beside(a, b).Ok? ==>
                 !C.BoxFails(C.Beside(a, b).value) &&
                 C.ShapesOf(C.Beside(a, b).value) == C.ShapesOf(a) + [] + C.ShapesOf(b) &&
                 B.Left(BoxOf(C.Beside(a, b).value)) == B.Left(BoxOf(a)) &&
                 B.Width(BoxOf(C.Beside(a, b).value)) == B.Width(BoxOf(a)) + 0.0 + B.Width(BoxOf(b)))
    {
      C.PlacingFails(a, b);
      if C.Beside(a, b).Ok? {
        C.BesideBox(a, b, C.GetBoundingBox(a, T.Identity).value, C.GetBoundingBox(b, T.Identity).value);
      }
    }
  }

  /** `above` fails with its parts, draws `a` then `b`, keeps `a`'s top edge
      and adds the heights. */
  lemma AbovePlaces()
    ensures FailsWithParts(C.Above) && Joins(C.Above, [])
    ensures Extends(C.Above, B.Top, B.Height, 0.0)
  {
    forall a: C.Diagram, b: C.Diagram
      ensures (C.Above(a, b).Err? <==> C.BoxFails(a) || C.BoxFails(b)) &&
              (C.Above(a, b).Ok? ==>
                 !C.BoxFails(C.Above(a, b).value) &&
                 C.ShapesOf(C.Above(a, b).value) == C.ShapesOf(a) + [] + C.ShapesOf(b) &&
                 B.Top(BoxOf(C.Above(a, b).value)) == B.Top(BoxOf(a)) &&
                 B.Height(BoxOf(C.Above(a, b).value)) == B.Height(BoxOf(a)) + 0.0 + B.Height(BoxOf(b)))
    {
      C.PlacingFails(a, b);
      if C.Above(a, b).Ok? {
        C.AboveBox(a, b, C.GetBoundingBox(a, T.Identity).value, C.GetBoundingBox(b, T.Identity).value);
      }
    }
  }

  /** With `m` whose box does not fail in the middle, a step fails exactly
      when one of its two diagrams does, and what it returns does not fail. */
  lemma BetweenFails(place: Placing, m: C.Diagram)
    requires FailsWithParts(place) && !C.BoxFails(m)
    ensures FailsWithParts(Between(place, m))
  {
    forall a: C.Diagram, b: C.Diagram
      ensures (Between(place, m)(a, b).Err? <==> C.BoxFails(a) || C.BoxFails(b)) &&
              (Between(place, m)(a, b).Ok? ==> !C.BoxFails(Between(place, m)(a, b).value))
    {
    }
  }

  /** A step with `m` in the middle draws `m`'s shapes between its parts'. */
  lemma BetweenJoins(place: Placing, m: C.Diagram)
    requires Joins(place, [])
    ensures Joins(Between(place, m), C.ShapesOf(m))
  {
    forall a: C.Diagram, b: C.Diagram | Between(place, m)(a, b).Ok?
      ensures C.ShapesOf(Between(place, m)(a, b).value) == C.ShapesOf(a) + C.ShapesOf(m) + C.ShapesOf(b)
    {
      assert place(a, m).Ok?;
    }
  }

  /** A step with `m` in the middle adds `m`'s extent between its parts'. */
  lemma BetweenExtends(place: Placing, edge: B.BoundingBox -> real, ext: B.BoundingBox -> real, m: C.Diagram)
    requires Extends(place, edge, ext, 0.0)
    ensures Extends(Between(place, m), edge, ext, ext(BoxOf(m)))
  {
    forall a: C.Diagram, b: C.Diagram | Between(place, m)(a, b).Ok?
      ensures edge(BoxOf(Between(place, m)(a, b).value)) == edge(BoxOf(a)) &&
              ext(BoxOf(Between(place, m)(a, b).value)) == ext(BoxOf(a)) + ext(BoxOf(m)) + ext(BoxOf(b))
    {
      assert place(a, m).Ok?;
    }
  }

  /** A fold that succeeds over a non-empty list takes a first step that
      succeeds and goes on from its result. */
  lemma ReduceFirst(step: Placing, acc: C.Diagram, ds: seq<C.Diagram>, r: C.Diagram)
    requires |ds| > 0 && Reduce(step, acc, ds) == Ok(r)
    ensures step(acc, ds[0]).Ok? && Reduce(step, step(acc, ds[0]).value, ds[1..]) == Ok(r)
  {
  }

  /** With a step that fails with its parts, the fold fails exactly when
      there is a diagram to add and the start or one of the added diagrams
      fails; with nothing to add it returns the start as it is, even one
      whose box fails. */
  lemma {:induction false} ReduceFails(step: Placing, acc: C.Diagram, ds: seq<C.Diagram>)
    requires FailsWithParts(step)
    ensures Reduce(step, acc, ds).Err? <==> |ds| > 0 && (C.BoxFails(acc) || AnyFails(ds))
    ensures |ds| == 0 ==> Reduce(step, acc, ds) == Ok(acc)
    ensures |ds| > 0 && Reduce(step, acc, ds).Ok? ==> !C.BoxFails(Reduce(step, acc, ds).value)
    decreases |ds|
  {
    if |ds| > 0 {
      var rest := ds[1..];
      if step(acc, ds[0]).Ok? {
        ReduceFails(step, step(acc, ds[0]).value, rest);
      }
      AnyFailsFirst(ds);
    }
  }

  /** With a step that puts `gap` between its parts, the fold draws the
      start, then each added diagram after `gap`. */
  lemma {:induction false} ReduceShapes(step: Placing, gap: seq<Sh.Shape>, acc: C.Diagram, ds: seq<C.Diagram>, r: C.Diagram)
    requires Joins(step, gap) && Reduce(step, acc, ds) == Ok(r)
    ensures C.ShapesOf(r) == C.ShapesOf(acc) + Joined(ds, gap)
    decreases |ds|
  {
    if |ds| > 0 {
      ReduceFirst(step, acc, ds, r);
      var next := step(acc, ds[0]).value;
      ReduceShapes(step, gap, next, ds[1..], r);
      ConcatAssoc(C.ShapesOf(acc), gap, C.ShapesOf(ds[0]), Joined(ds[1..], gap));
    }
  }

  /** With a step that keeps an edge and adds `g` and the next diagram's
      extent, the fold keeps the start's edge and its extent is the
      start's, every added diagram's and one `g` for each. */
  lemma {:induction false} ReduceExtent(step: Placing, edge: B.BoundingBox -> real, ext: B.BoundingBox -> real, g: real,
                                         acc: C.Diagram, ds: seq<C.Diagram>, r: C.Diagram)
    requires Extends(step, edge, ext, g) && Reduce(step, acc, ds) == Ok(r)
    ensures edge(BoxOf(r)) == edge(BoxOf(acc))
    ensures ext(BoxOf(r)) == ext(BoxOf(acc)) + SumOf(ext, ds) + Gaps(|ds|, g)
    decreases |ds|
  {
    if |ds| > 0 {
      ReduceFirst(step, acc, ds, r);
      var next := step(acc, ds[0]).value;
      ReduceExtent(step, edge, ext, g, next, ds[1..], r);
      Regroup(ext(BoxOf(r)), ext(BoxOf(next)), ext(BoxOf(acc)), g, ext(BoxOf(ds[0])), SumOf(ext, ds[1..]), Gaps(|ds| - 1, g));
    }
  }

  /** A list fails when its first diagram or one of the rest does. */
  lemma AnyFailsFirst(ds: seq<C.Diagram>)
    requires |ds| > 0
    ensures AnyFails(ds) <==> C.BoxFails(ds[0]) || AnyFails(ds[1..])
  {
    if AnyFails(ds) {
      var i :| 0 <= i < |ds| && C.BoxFails(ds[i]);
      if i > 0 {
        assert C.BoxFails(ds[1..][i - 1]);
      }
    }
    if AnyFails(ds[1..]) {
      var i :| 0 <= i < |ds[1..]| && C.BoxFails(ds[1..][i]);
      assert C.BoxFails(ds[i + 1]);
    }
  }

  /** An `hcat`/`vcat`-shaped fold over a non-empty list, with `m` between
      neighbours, is the diagram itself for one diagram and fails exactly
      when there are two or more and one of them fails. */
  lemma CatFails(place: Placing, m: C.Diagram, ds: seq<C.Diagram>)
    requires FailsWithParts(place) && !C.BoxFails(m) && |ds| > 0
    ensures |ds| == 1 ==> Reduce(Between(place, m), ds[0], ds[1..]) == Ok(ds[0])
    ensures Reduce(Between(place, m), ds[0], ds[1..]).Err? <==> |ds| >= 2 && AnyFails(ds)
  {
    BetweenFails(place, m);
    ReduceFails(Between(place, m), ds[0], ds[1..]);
    AnyFailsFirst(ds);
  }

  /** Such a fold that succeeds draws the diagrams in order with `m`
      between neighbours, keeps the first diagram's edge and adds up the
      extents. */
  lemma CatDraws(place: Placing, edge: B.BoundingBox -> real, ext: B.BoundingBox -> real,
                 m: C.Diagram, ds: seq<C.Diagram>, r: C.Diagram)
    requires Joins(place, []) && Extends(place, edge, ext, 0.0)
    requires |ds| > 0 && Reduce(Between(place, m), ds[0], ds[1..]) == Ok(r)
    ensures C.ShapesOf(r) == C.ShapesOf(ds[0]) + Joined(ds[1..], C.ShapesOf(m))
    ensures edge(BoxOf(r)) == edge(BoxOf(ds[0]))
    ensures ext(BoxOf(r)) == ext(BoxOf(ds[0])) + SumOf(ext, ds[1..]) + Gaps(|ds| - 1, ext(BoxOf(m)))
  {
    BetweenJoins(place, m);
    BetweenExtends(place, edge, ext, m);
    ReduceShapes(Between(place, m), C.ShapesOf(m), ds[0], ds[1..], r);
    ReduceExtent(Between(place, m), edge, ext, ext(BoxOf(m)), ds[0], ds[1..], r);
  }

  /** `hcat([])` is empty and `hcat([d])` is `d` itself. Otherwise `hcat`
      fails exactly when one of the diagrams does; it draws the first
      diagram, then each further one after a strut; and its box starts at
      the first diagram's left edge and, for a strut size that is not
      negative, is as wide as the diagrams plus `n - 1` struts for `n` diagrams. */
  lemma HCatLaws(ds: seq<C.Diagram>, sep: Option<real>)
    ensures HCat([], sep) == Ok(C.Empty)
    ensures |ds| == 1 ==> HCat(ds, sep) == Ok(ds[0])
    ensures HCat(ds, sep).Err? <==> |ds| >= 2 && AnyFails(ds)
    ensures |ds| > 0 && HCat(ds, sep).Ok? ==>
              C.ShapesOf(HCat(ds, sep).value) == C.ShapesOf(ds[0]) + Joined(ds[1..], C.ShapesOf(HStrut(sep)))
    ensures |ds| > 0 && HCat(ds, sep).Ok? && Gap(sep) >= 0.0 ==>
              var box := BoxOf(HCat(ds, sep).value);
              B.Left(box) == B.Left(BoxOf(ds[0])) &&
              B.Width(box) == B.Width(BoxOf(ds[0])) + SumOf(B.Width, ds[1..]) + ((|ds| - 1) as real) * Gap(sep)
  {
    if |ds| > 0 {
      StrutSizes(sep);
      BesidePlaces();
      CatFails(C.Beside, HStrut(sep), ds);
      if HCat(ds, sep).Ok? {
        CatDraws(C.Beside, B.Left, B.Width, HStrut(sep), ds, HCat(ds, sep).value);
        if Gap(sep) >= 0.0 {
          HCatExtent(ds, sep);
        }
      }
    }
  }

  /** The extent clause of `HCatLaws` on its own: `n - 1` struts add
      `n - 1` times the strut size. */
  lemma HCatExtent(ds: seq<C.Diagram>, sep: Option<real>)
    requires |ds| > 0 && HCat(ds, sep).Ok? && Gap(sep) >= 0.0
    ensures B.Width(BoxOf(HCat(ds, sep).value))
              == B.Width(BoxOf(ds[0])) + SumOf(B.Width, ds[1..]) + ((|ds| - 1) as real) * Gap(sep)
  {
    StrutSizes(sep);
    BesidePlaces();
    CatDraws(C.Beside, B.Left, B.Width, HStrut(sep), ds, HCat(ds, sep).value);
    GapsTimesAll();
  }

  /** `vcat([])` is empty and `vcat([d])` is `d` itself. Otherwise `vcat`
      fails exactly when one of the diagrams does; it draws the first
      diagram, then each further one after a strut; and its box starts at
      the first diagram's top edge and, for a strut size that is not
      negative, is as tall as the diagrams plus `n - 1` struts for `n` diagrams. */
  lemma VCatLaws(ds: seq<C.Diagram>, sep: Option<real>)
    ensures VCat([], sep) == Ok(C.Empty)
    ensures |ds| == 1 ==> VCat(ds, sep) == Ok(ds[0])
    ensures VCat(ds, sep).Err? <==> |ds| >= 2 && AnyFails(ds)
    ensures |ds| > 0 && VCat(ds, sep).Ok? ==>
              C.ShapesOf(VCat(ds, sep).value) == C.ShapesOf(ds[0]) + Joined(ds[1..], C.ShapesOf(VStrut(sep)))
    ensures |ds| > 0 && VCat(ds, sep).Ok? && Gap(sep) >= 0.0 ==>
              var box := BoxOf(VCat(ds, sep).value);
              B.Top(box) == B.Top(BoxOf(ds[0])) &&
              B.Height(box) == B.Height(BoxOf(ds[0])) + SumOf(B.Height, ds[1..]) + ((|ds| - 1) as real) * Gap(sep)
  {
    if |ds| > 0 {
      StrutSizes(sep);
      AbovePlaces();
      CatFails(C.Above, VStrut(sep), ds);
      if VCat(ds, sep).Ok? {
        CatDraws(C.Above, B.Top, B.Height, VStrut(sep), ds, VCat(ds, sep).value);
        if Gap(sep) >= 0.0 {
          VCatExtent(ds, sep);
        }
      }
    }
  }

  /** The extent clause of `VCatLaws` on its own: `n - 1` struts add
      `n - 1` times the strut size. */
  lemma VCatExtent(ds: seq<C.Diagram>, sep: Option<real>)
    requires |ds| > 0 && VCat(ds, sep).Ok? && Gap(sep) >= 0.0
    ensures B.Height(BoxOf(VCat(ds, sep).value))
              == B.Height(BoxOf(ds[0])) + SumOf(B.Height, ds[1..]) + ((|ds| - 1) as real) * Gap(sep)
  {
    StrutSizes(sep);
    AbovePlaces();
    CatDraws(C.Above, B.Top, B.Height, VStrut(sep), ds, VCat(ds, sep).value);
    GapsTimesAll();
  }

  // place_at and place_on_path

  /** Each diagram translated to its point, the two lists zipped to the
      shorter one as `zip` zips them. */
  function Translated(ds: seq<C.Diagram>, pts: seq<Point>): (r: seq<C.Diagram>)
    ensures |r| == if |ds| < |pts| then |ds| else |pts|
    ensures forall i :: 0 <= i < |r| ==> r[i] == C.Transformed(ds[i], T.Translate(pts[i].x, pts[i].y))
  {
    seq(if |ds| < |pts| then |ds| else |pts|,
        i requires 0 <= i < |ds| && i < |pts| => C.Transformed(ds[i], T.Translate(pts[i].x, pts[i].y)))
  }

  /** The points of coordinate pairs. */
  function PointsOf(coords: seq<(real, real)>): (r: seq<Point>)
    ensures |r| == |coords|
  {
    seq(|coords|, i requires 0 <= i < |coords| => Point(coords[i].0, coords[i].1))
  }

  /** `place_at(diagrams, points)`: the translated diagrams, set atop one
      another. */
  function PlaceAt(ds: seq<C.Diagram>, coords: seq<(real, real)>): Result<C.Diagram> {
    Concat(Translated(ds, PointsOf(coords)))
  }

  /** `place_on_path(diagrams, path)`: the same with the path's points. */
  function PlaceOnPath(ds: seq<C.Diagram>, path: Sh.Shape): Result<C.Diagram>
    requires path.Path?
  {
    Concat(Translated(ds, path.points))
  }

  /** The shapes of each diagram, one list after the other. */
  function AllShapes(ds: seq<C.Diagram>): seq<Sh.Shape>
    decreases |ds|
  {
    if |ds| == 0 then [] else AllShapes(ds[..|ds| - 1]) + C.ShapesOf(ds[|ds| - 1])
  }

  /** A `concat` that succeeds draws the shapes of the diagrams in order. */
  lemma {:induction false} ConcatShapes(ds: seq<C.Diagram>)
    requires Concat(ds).Ok?
    ensures C.ShapesOf(Concat(ds).value) == AllShapes(ds)
    decreases |ds|
  {
    if |ds| > 0 {
      ConcatShapes(ds[..|ds| - 1]);
    }
  }

  /** Lists whose diagrams draw the same shapes, place by place, draw the
      same shapes. */
  lemma {:induction false} AllShapesPointwise(xs: seq<C.Diagram>, ys: seq<C.Diagram>)
    requires |xs| == |ys| && forall i :: 0 <= i < |xs| ==> C.ShapesOf(xs[i]) == C.ShapesOf(ys[i])
    ensures AllShapes(xs) == AllShapes(ys)
    decreases |xs|
  {
    if |xs| > 0 {
      var n := |xs| - 1;
      assert forall i :: 0 <= i < n ==> xs[..n][i] == xs[i] && ys[..n][i] == ys[i];
      AllShapesPointwise(xs[..n], ys[..n]);
    }
  }

  /** Translating a diagram keeps its shapes and whether its box fails, and
      moves its box by the vector, unless it reaches the empty diagram, whose
      box stays the origin box. */
  lemma TranslatedOne(d: C.Diagram, p: Point)
    ensures var m := C.Transformed(d, T.Translate(p.x, p.y));
            (C.BoxFails(m) <==> C.BoxFails(d)) && C.ShapesOf(m) == C.ShapesOf(d)
    ensures !C.BoxFails(d) ==>
              BoxOf(C.Transformed(d, T.Translate(p.x, p.y)))
              == if C.Base(d).Empty? then B.Empty() else B.Shift(BoxOf(d), Vector(p.x, p.y))
  {
    var v := Vector(p.x, p.y);
    C.TransformedBox(d, T.Translate(p.x, p.y));
    if !C.BoxFails(d) {
      C.TranslatedBoxOk(d, BoxOf(d), v);
    }
  }

  /** The translated list fails to set exactly when one of the diagrams that
      has a point fails; otherwise it draws their shapes in order, its box is
      the union of the origin box with theirs, and each box is its diagram's
      box moved to its point. */
  lemma PlacedLaws(ds: seq<C.Diagram>, pts: seq<Point>)
    ensures var n := if |ds| < |pts| then |ds| else |pts|;
            Concat(Translated(ds, pts)).Err? <==> AnyFails(ds[..n])
    ensures var n := if |ds| < |pts| then |ds| else |pts|;
            Concat(Translated(ds, pts)).Ok? ==> C.ShapesOf(Concat(Translated(ds, pts)).value) == AllShapes(ds[..n])
    ensures Concat(Translated(ds, pts)).Ok? ==> BoxOf(Concat(Translated(ds, pts)).value) == UnionOf(Translated(ds, pts))
    ensures forall i :: 0 <= i < |ds| && i < |pts| && !C.BoxFails(ds[i]) ==>
              BoxOf(Translated(ds, pts)[i])
              == if C.Base(ds[i]).Empty? then B.Empty() else B.Shift(BoxOf(ds[i]), Vector(pts[i].x, pts[i].y))
  {
    var ms := Translated(ds, pts);
    var n := |ms|;
    var front := ds[..n];
    forall i | 0 <= i < n
      ensures (C.BoxFails(ms[i]) <==> C.BoxFails(front[i])) && C.ShapesOf(ms[i]) == C.ShapesOf(front[i])
      ensures !C.BoxFails(ds[i]) ==>
                BoxOf(ms[i]) == if C.Base(ds[i]).Empty? then B.Empty() else B.Shift(BoxOf(ds[i]), Vector(pts[i].x, pts[i].y))
    {
      TranslatedOne(ds[i], pts[i]);
    }
    ConcatFails(ms);
    if AnyFails(front) {
      var i :| 0 <= i < n && C.BoxFails(front[i]);
      assert C.BoxFails(ms[i]);
    }
    if AnyFails(ms) {
      var i :| 0 <= i < n && C.BoxFails(ms[i]);
      assert C.BoxFails(front[i]);
    }
    if Concat(ms).Ok? {
      ConcatBox(ms);
      ConcatShapes(ms);
      AllShapesPointwise(ms, front);
    }
  }

  /** `place_at` uses as many diagrams as there are points (or the other way
      round); it fails exactly when one of the diagrams it uses does; it
      draws their shapes in order, and its box is the union of the origin
      box with each diagram's box moved to its point. */
  lemma PlaceAtLaws(ds: seq<C.Diagram>, coords: seq<(real, real)>)
    ensures var n := if |ds| < |coords| then |ds| else |coords|;
            PlaceAt(ds, coords).Err? <==> AnyFails(ds[..n])
    ensures var n := if |ds| < |coords| then |ds| else |coords|;
            PlaceAt(ds, coords).Ok? ==> C.ShapesOf(PlaceAt(ds, coords).value) == AllShapes(ds[..n])
    ensures PlaceAt(ds, coords).Ok? ==> BoxOf(PlaceAt(ds, coords).value) == UnionOf(Translated(ds, PointsOf(coords)))
    ensures forall i :: 0 <= i < |ds| && i < |coords| && !C.BoxFails(ds[i]) ==>
              BoxOf(C.Transformed(ds[i], T.Translate(coords[i].0, coords[i].1)))
              == if C.Base(ds[i]).Empty? then B.Empty() else B.Shift(BoxOf(ds[i]), Vector(coords[i].0, coords[i].1))
  {
    var pts := PointsOf(coords);
    PlacedLaws(ds, pts);
    forall i | 0 <= i < |ds| && i < |coords|
      ensures !C.BoxFails(ds[i]) ==>
                BoxOf(C.Transformed(ds[i], T.Translate(coords[i].0, coords[i].1)))
                == if C.Base(ds[i]).Empty? then B.Empty() else B.Shift(BoxOf(ds[i]), Vector(coords[i].0, coords[i].1))
    {
      TranslatedOne(ds[i], pts[i]);
    }
  }

  /** `place_on_path` is `place_at` with the path's points. */
  lemma PlaceOnPathLaws(ds: seq<C.Diagram>, path: Sh.Shape)
    requires path.Path?
    ensures var n := if |ds| < |path.points| then |ds| else |path.points|;
            PlaceOnPath(ds, path).Err? <==> AnyFails(ds[..n])
    ensures var n := if |ds| < |path.points| then |ds| else |path.points|;
            PlaceOnPath(ds, path).Ok? ==> C.ShapesOf(PlaceOnPath(ds, path).value) == AllShapes(ds[..n])
    ensures PlaceOnPath(ds, path).Ok? ==> BoxOf(PlaceOnPath(ds, path).value) == UnionOf(Translated(ds, path.points))
    ensures PlaceOnPath(ds, path) == PlaceAt(ds, Sh.ToTuples(path.points))
  {
    PlacedLaws(ds, path.points);
    var pts := PointsOf(Sh.ToTuples(path.points));
    assert forall i :: 0 <= i < |pts| ==> pts[i] == path.points[i];
    assert pts == path.points;
  }

  // connect

  /** `connect_outer(diagram, name1, c1, name2, c2, arrow)`: both named boxes
      are looked up first, each name must be found, in that order, and then
      the compass points `c1` and `c2` of the two boxes are joined by a
      path. */
  function ConnectOuter(d: C.Diagram, name1: string, c1: string, name2: string, c2: string, arrow: bool)
    : Result<C.Diagram>
  {
    var bb1 :- C.GetSubdiagramBoundingBox(d, name1, T.Identity);
    var bb2 :- C.GetSubdiagramBoundingBox(d, name2, T.Identity);
    if bb1.None? then Err(NameNotFound(name1))
    else if bb2.None? then Err(NameNotFound(name2))
    else
      var p1 :- B.Cardinal(bb1.value, c1);
      var p2 :- B.Cardinal(bb2.value, c2);
      Ok(FromShape(Sh.Path([p1, p2], arrow)))
  }

  /** `connect(diagram, name1, name2)`: the centers joined, without an
      arrow. */
  function Connect(d: C.Diagram, name1: string, name2: string): Result<C.Diagram> {
    ConnectOuter(d, name1, "C", name2, "C", false)
  }

  /** A box the named search reports is proper. */
  lemma {:induction false} SubdiagramProper(d: C.Diagram, name: string, t: T.Transform)
    ensures C.GetSubdiagramBoundingBox(d, name, t).Ok? && C.GetSubdiagramBoundingBox(d, name, t).value.Some? ==>
              B.Proper(C.GetSubdiagramBoundingBox(d, name, t).value.value)
  {
    match d
    case Compose(_, a, b) =>
      SubdiagramProper(a, name, t);
      SubdiagramProper(b, name, t);
    case ApplyTransform(tr, e) =>
      SubdiagramProper(e, name, T.Compose(t, tr));
    case ApplyStyle(_, e) =>
      SubdiagramProper(e, name, t);
    case _ =>
  }

  /** `connect_outer` succeeds exactly when both names are found and both
      compass keys are known; a missing name is reported, the first one
      first; a success is a two-point path, from the point `c1` of the first
      box to the point `c2` of the second, each inside its box. */
  lemma ConnectOuterLaws(d: C.Diagram, name1: string, c1: string, name2: string, c2: string, arrow: bool)
    ensures var l1 := C.GetSubdiagramBoundingBox(d, name1, T.Identity);
            var l2 := C.GetSubdiagramBoundingBox(d, name2, T.Identity);
            ConnectOuter(d, name1, c1, name2, c2, arrow).Ok? <==>
              l1.Ok? && l1.value.Some? && l2.Ok? && l2.value.Some? && c1 in B.Directions && c2 in B.Directions
    ensures var l1 := C.GetSubdiagramBoundingBox(d, name1, T.Identity);
            var l2 := C.GetSubdiagramBoundingBox(d, name2, T.Identity);
            l1 == Ok(None) && l2.Ok? ==> ConnectOuter(d, name1, c1, name2, c2, arrow) == Err(NameNotFound(name1))
    ensures var l1 := C.GetSubdiagramBoundingBox(d, name1, T.Identity);
            var l2 := C.GetSubdiagramBoundingBox(d, name2, T.Identity);
            l1.Ok? && l1.value.Some? && l2 == Ok(None) ==> ConnectOuter(d, name1, c1, name2, c2, arrow) == Err(NameNotFound(name2))
    ensures var r := ConnectOuter(d, name1, c1, name2, c2, arrow);
            r.Ok? ==>
              var bb1 := C.GetSubdiagramBoundingBox(d, name1, T.Identity).value.value;
              var bb2 := C.GetSubdiagramBoundingBox(d, name2, T.Identity).value.value;
              var p1 := B.Cardinal(bb1, c1).value;
              var p2 := B.Cardinal(bb2, c2).value;
              r.value == FromShape(Sh.Path([p1, p2], arrow)) &&
              B.Contains(bb1, p1) && B.Contains(bb2, p2) &&
              C.ShapesOf(r.value) == [Sh.Path([p1, p2], arrow)]
  {
    SubdiagramProper(d, name1, T.Identity);
    SubdiagramProper(d, name2, T.Identity);
  }

  /** `connect` succeeds exactly when both names are found, and then joins
      the centers of the two boxes with a path without an arrow. */
  lemma ConnectLaws(d: C.Diagram, name1: string, name2: string)
    ensures var l1 := C.GetSubdiagramBoundingBox(d, name1, T.Identity);
            var l2 := C.GetSubdiagramBoundingBox(d, name2, T.Identity);
            Connect(d, name1, name2).Ok? <==> l1.Ok? && l1.value.Some? && l2.Ok? && l2.value.Some?
    ensures Connect(d, name1, name2).Ok? ==>
              var bb1 := C.GetSubdiagramBoundingBox(d, name1, T.Identity).value.value;
              var bb2 := C.GetSubdiagramBoundingBox(d, name2, T.Identity).value.value;
              Connect(d, name1, name2).value == FromShape(Sh.Path([B.Center(bb1), B.Center(bb2)], false))
  {
    ConnectOuterLaws(d, name1, "C", name2, "C", false);
    if Connect(d, name1, name2).Ok? {
      B.CardinalPoints(C.GetSubdiagramBoundingBox(d, name1, T.Identity).value.value);
      B.CardinalPoints(C.GetSubdiagramBoundingBox(d, name2, T.Identity).value.value);
    }
  }
}
