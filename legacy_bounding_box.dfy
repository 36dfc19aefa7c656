/** The older bounding box (diagrams/bounding_box.py).

    It has the same corners, edges, `enclose`, `apply_transform` and `union`
    as the newer class, and no `cardinal`. It is modelled on its own and
    then shown to agree with module BoundingBoxes operation by operation, so
    every law proved there holds for it too. The points and transforms it
    imports from `diagrams.point` and `diagrams.transform` are taken to be
    those of chalk; those two files are not part of this model.
 */
module LegacyBoundingBoxes {

  import opened Points
  import opened Transforms
  import B = BoundingBoxes

  datatype BoundingBox = BoundingBox(tl: Point, br: Point)

  function Left(b: BoundingBox): real { b.tl.x }
  function Top(b: BoundingBox): real { b.tl.y }
  function Right(b: BoundingBox): real { b.br.x }
  function Bottom(b: BoundingBox): real { b.br.y }
  function Width(b: BoundingBox): real { b.br.x - b.tl.x }
  function Height(b: BoundingBox): real { b.br.y - b.tl.y }
  function Tr(b: BoundingBox): Point { Point(Right(b), Top(b)) }
  function Bl(b: BoundingBox): Point { Point(Left(b), Bottom(b)) }

  function Center(b: BoundingBox): Point {
    Point((Left(b) + Right(b)) / 2.0, (Top(b) + Bottom(b)) / 2.0)
  }

  function FromLimits(left: real, top: real, right: real, bottom: real): BoundingBox {
    BoundingBox(Point(left, top), Point(right, bottom))
  }

  function Empty(): BoundingBox {
    BoundingBox(ORIGIN, ORIGIN)
  }

  function Enclose(b: BoundingBox, p: Point): BoundingBox {
    FromLimits(B.Min(Left(b), p.x), B.Min(Top(b), p.y), B.Max(Right(b), p.x), B.Max(Bottom(b), p.y))
  }

  function ApplyTransform(b: BoundingBox, t: Transform): BoundingBox {
    var tl := ApplyToPoint(b.tl, t);
    Enclose(Enclose(Enclose(BoundingBox(tl, tl), ApplyToPoint(Tr(b), t)),
                    ApplyToPoint(Bl(b), t)),
            ApplyToPoint(b.br, t))
  }

  function Union(a: BoundingBox, o: BoundingBox): BoundingBox {
    FromLimits(B.Min(Left(a), Left(o)), B.Min(Top(a), Top(o)),
               B.Max(Right(a), Right(o)), B.Max(Bottom(a), Bottom(o)))
  }

  /** The same two corners, read as a box of the newer class. */
  function ToChalk(b: BoundingBox): (r: B.BoundingBox)
    ensures r.tl == b.tl && r.br == b.br
  {
    B.BoundingBox(b.tl, b.br)
  }

  /** Every operation of the older class is the newer class's operation on
      the same corners. */
  lemma AgreesWithChalk(a: BoundingBox, o: BoundingBox, p: Point, t: Transform,
                        l: real, tp: real, r: real, bt: real)
    ensures ToChalk(FromLimits(l, tp, r, bt)) == B.FromLimits(l, tp, r, bt)
    ensures ToChalk(Empty()) == B.Empty()
    ensures Tr(a) == B.Tr(ToChalk(a)) && Bl(a) == B.Bl(ToChalk(a))
    ensures Width(a) == B.Width(ToChalk(a)) && Height(a) == B.Height(ToChalk(a))
    ensures Left(a) == B.Left(ToChalk(a)) && Top(a) == B.Top(ToChalk(a))
    ensures Right(a) == B.Right(ToChalk(a)) && Bottom(a) == B.Bottom(ToChalk(a))
    ensures Center(a) == B.Center(ToChalk(a))
    ensures ToChalk(Enclose(a, p)) == B.Enclose(ToChalk(a), p)
    ensures ToChalk(ApplyTransform(a, t)) == B.ApplyTransform(ToChalk(a), t)
    ensures ToChalk(Union(a, o)) == B.Union(ToChalk(a), ToChalk(o))
  {
    B.ApplyTransformOf4(ToChalk(a), t);
  }

  /** `union` is commutative, associative and idempotent here too. */
  lemma UnionLaws(a: BoundingBox, b: BoundingBox, c: BoundingBox)
    ensures Union(a, b) == Union(b, a)
    ensures Union(Union(a, b), c) == Union(a, Union(b, c))
    ensures Union(a, a) == a
  {
    B.UnionLaws(ToChalk(a), ToChalk(b), ToChalk(c));
    AgreesWithChalk(a, b, ORIGIN, Identity, 0.0, 0.0, 0.0, 0.0);
    AgreesWithChalk(Union(a, b), c, ORIGIN, Identity, 0.0, 0.0, 0.0, 0.0);
    AgreesWithChalk(b, a, ORIGIN, Identity, 0.0, 0.0, 0.0, 0.0);
    AgreesWithChalk(b, c, ORIGIN, Identity, 0.0, 0.0, 0.0, 0.0);
    AgreesWithChalk(a, Union(b, c), ORIGIN, Identity, 0.0, 0.0, 0.0, 0.0);
    AgreesWithChalk(a, a, ORIGIN, Identity, 0.0, 0.0, 0.0, 0.0);
  }

  /** `enclose(p)` contains `p` and covers the old box; the transformed box
      contains the four transformed corners; a translation shifts a proper
      box by the translation vector. */
  lemma EncloseAndTransform(a: BoundingBox, p: Point, t: Transform, dx: real, dy: real)
    ensures B.Contains(ToChalk(Enclose(a, p)), p) && B.Within(ToChalk(a), ToChalk(Enclose(a, p)))
    ensures B.Contains(ToChalk(ApplyTransform(a, t)), ApplyToPoint(a.tl, t))
    ensures B.Contains(ToChalk(ApplyTransform(a, t)), ApplyToPoint(Tr(a), t))
    ensures B.Contains(ToChalk(ApplyTransform(a, t)), ApplyToPoint(Bl(a), t))
    ensures B.Contains(ToChalk(ApplyTransform(a, t)), ApplyToPoint(a.br, t))
    ensures Left(a) <= Right(a) && Top(a) <= Bottom(a) ==>
              ApplyTransform(a, Translate(dx, dy))
              == FromLimits(Left(a) + dx, Top(a) + dy, Right(a) + dx, Bottom(a) + dy)
  {
    AgreesWithChalk(a, a, p, t, 0.0, 0.0, 0.0, 0.0);
    AgreesWithChalk(a, a, p, Translate(dx, dy), 0.0, 0.0, 0.0, 0.0);
    B.ApplyTransformTight(ToChalk(a), t);
    B.ApplyTranslate(ToChalk(a), dx, dy);
  }
}
