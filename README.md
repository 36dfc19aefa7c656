# chalk bounding-box layout, modelled in Dafny

This project models the layout core of the Python diagram library *chalk*. It covers the version that places diagrams by axis-aligned bounding boxes. The project proves properties of that model.

A diagram is an immutable tree:
- leaves are primitives (a shape with a style and an affine transform) and the empty diagram;
- inner nodes compose two diagrams under a cached box, or wrap one diagram in a transform, a style or a name.

The model covers the following:
- the transform algebra and its cairo-matrix meaning;
- point and vector arithmetic;
- the bounding-box lattice;
- style merging and the style's SVG string;
- on the tree, the three queries: the box under a transform, the flattening into primitives, and the box of a named sub-diagram;
- the placing, alignment and padding combinators;
- the boxes of the basic shapes;
- the conversions between trails and paths;
- the list combinators (`concat`, `hcat`, `vcat`, struts, `place_at`, `connect`);
- the segment-based path with its point and closedness queries;
- the older bounding-box and style classes under `diagrams/`.

Modules follow the library's files, one each:

| module | file |
|---|---|
| `Wrappers` | `Result` and `Option` |
| `Points` | point.py |
| `Transforms` | transform.py |
| `BoundingBoxes` | bounding_box.py |
| `Styles` | style.py |
| `Shapes` | shape.py |
| `Core` | core.py |
| `Trails` | trail.py |
| `Chalk` | `__init__.py` |
| `SegmentPaths` | shapes/path.py |
| `LegacyBoundingBoxes` | diagrams/bounding_box.py |
| `LegacyStyles` | diagrams/style.py |

Modelling choices:
- **Coordinates** are `real`, so equalities that hold only approximately on floats hold exactly here.
- **Exceptions** become `Err` values of a `Result`:
  - `EmptyPath`: the `points[0]` of a path without points;
  - `UnknownDirection`: the `KeyError` of `cardinal`;
  - `NameNotFound`: the `assert` of `connect_outer`;
  - `DivisionByZero`: `polygon` with no sides, `regular_polygon` with no sides or with `2 * sin(pi / sides)` zero, `scale_uniform_to_x/y` on a box of zero extent.
- **Error propagation.** Every query or combinator that reads a box returns a `Result` and passes the error on.
- **Imperative loops** are methods whose `ensures` ties the result to a specification function. The properties are then proved about that function. These loops are:
  - the bounding box of a point path;
  - `polygon`'s vertex loop;
  - `Trail.to_path`;
  - `Path.points()`.

Behaviours of the code that the model keeps as written:
- `BoundingBox.empty()` is the point box at the origin, not a neutral element.
- The empty diagram's box ignores the transform.
- `Vector.apply_transform` moves vectors by the translation part.
- `Path.apply_transform` in shape.py drops the `arrow` flag.
- A name node answers only for its own name and hides the names inside it.
- `to_list(t)` applies `t` at the primitive and again at every transform node above it. Only `Identity` is ever passed in the library. The model proves three things:
  - at `Identity`, `to_list` agrees with an independent top-down flattening;
  - the shapes are listed in order for every `t`;
  - `Diagram.apply_transform` and `Primitive.apply_transform` draw the same thing.
- `at_center`'s documentation speaks of moving the first diagram's center to the second's. The code instead moves the second diagram by the vector from the origin to the first one's center, and the model follows the code.

## Model

| member | source | states |
|---|---|---|
| `Points.Add` | chalk/point.py:31-40 | a point moved by a vector; `Points.AddDiffRoundTrip` states that subtracting the start point gives the vector back |
| `Points.Diff` | chalk/point.py:42-52 | the displacement from `q` to `p`, added to `q`, gives `p` |
| `Points.VAdd` | chalk/point.py:136-146 | component-wise vector sum; `Points.VectorLaws` states that it is commutative with the zero vector as unit |
| `Points.VSub` | chalk/point.py:148-158 | vector difference undoes vector addition |
| `Points.Neg` | chalk/point.py:160-168 | both components negated; `Points.VectorLaws` states that it is an involution whose sum with the vector is zero |
| `Points.Mul` | chalk/point.py:123-132 | both components scaled; `Points.ScalingLaws` states distributivity, composition of factors and the unit 1 |
| `Points.VectorLaws` | chalk/point.py:136-168 | vector addition is commutative with unit zero; negation is an involution whose sum with the original is zero; subtraction adds the negation |
| `Points.ScalingLaws` | chalk/point.py:123-146 | scaling distributes over addition, composes multiplicatively, has unit 1, and scaling by -1 is negation |
| `Points.AddDiffRoundTrip` | chalk/point.py:31-52 | `(p + v) - p == v`, `p + (q - p) == q`, and adding then subtracting a vector returns the point |
| `Transforms.TransformPoint` | chalk/point.py:18-29 | cairo's `transform_point` on a matrix; `Transforms.MatrixExtensional` states that a matrix is fixed by what it does to three points |
| `Transforms.Multiply` | chalk/transform.py:111-113 | cairo's matrix product; `Transforms.MultiplyActs` states that it acts as "the first, then the second", `MultiplyAssociative` and `MultiplyIdentity` its laws |
| `Transforms.MatrixOf` | chalk/transform.py:19-113 | the matrix each transform class returns from `__call__`; `Transforms.ApplyToPointMeaning` states what each one does to a point |
| `Transforms.ApplyToPoint` | chalk/point.py:18-29 | `Point.apply_transform`; `Transforms.ApplyToPointMeaning` states its effect for every transform variant |
| `Transforms.MultiplyActs` | chalk/transform.py:111-113 | the cairo product of two matrices acts on a point as "apply the first, then the second" |
| `Transforms.MatrixExtensional` | chalk/transform.py:8-16 | a matrix is determined by the images of three points |
| `Transforms.MultiplyAssociative` | chalk/transform.py:104-113 | the matrix product is associative |
| `Transforms.MultiplyIdentity` | chalk/transform.py:23-24 | `cairo.Matrix()` is a two-sided unit of the product |
| `Transforms.ApplyToPointMeaning` | chalk/point.py:18-29 | for each transform variant, what it does to a point; `Compose(t, u)` applies `u` first, then `t` |
| `Transforms.ApplyToVector` | chalk/point.py:99-110 | a vector is transformed as a point, so a translation adds its offset to the vector |
| `Transforms.ComposeAssociative` | chalk/transform.py:104-113 | `Compose` is associative up to the matrix it denotes |
| `Transforms.ComposeCongruent` | chalk/transform.py:111-113 | composition depends on its first argument only through that argument's matrix |
| `Transforms.ComposeIdentity` | chalk/transform.py:19-27 | `Identity` is a two-sided unit of `Compose` up to the matrix |
| `Transforms.Uniform` | chalk/transform.py:128-129 | `scale(a)` as `Scale(a, a)`; `Transforms.HelpersAct` states that it scales both coordinates by `a` |
| `Transforms.StretchX` | chalk/transform.py:131-132 | `scale_x(a)` as `Scale(a, 1)`; `Transforms.HelpersAct` states that it scales only `x` |
| `Transforms.StretchY` | chalk/transform.py:134-135 | `scale_y(a)` as `Scale(1, a)`; `Transforms.HelpersAct` states that it scales only `y` |
| `Transforms.RotateBy` | chalk/transform.py:140-143 | `rotate_by(turns)` as a rotation by `2 pi turns`; `Transforms.RotateBySvg` states how it prints |
| `Transforms.ReflectX` | chalk/transform.py:145-146 | `reflect_x` as `Scale(-1, 1)`; `Transforms.HelpersAct` states that it negates `x`, `ReflectXInvolutive` that it undoes itself |
| `Transforms.ReflectY` | chalk/transform.py:148-149 | `reflect_y` as `Scale(1, -1)`; `Transforms.HelpersAct` states that it negates `y`, `ReflectYInvolutive` that it undoes itself |
| `Transforms.TranslateBy` | chalk/transform.py:160-161 | `translate_by(v)` as `Translate(v.dx, v.dy)`; `Transforms.HelpersAct` states that it adds `v` to a point |
| `Transforms.HelpersAct` | chalk/transform.py:128-161 | what `scale`, `scale_x`, `scale_y`, `reflect_x`, `reflect_y` and `translate_by` do to a point; each reflection applied twice returns the point |
| `Transforms.ReflectXInvolutive` | chalk/transform.py:145-146 | `reflect_x` twice denotes the identity matrix |
| `Transforms.ReflectYInvolutive` | chalk/transform.py:148-149 | `reflect_y` twice denotes the identity matrix |
| `Transforms.RotateBySvg` | chalk/transform.py:140-143 | `rotate_by(turns)` prints as a rotation by `360 * turns` degrees |
| `Transforms.ToSvg` | chalk/transform.py:15-116 | the `to_svg` string of every transform class; `Transforms.RotateBySvg`, `SvgListAppend` and `LeavesDetermine` state how rotations and compositions print |
| `Transforms.Leaves` | chalk/transform.py:104-116 | the non-Compose parts of a transform tree, at least one, none of them a Compose |
| `Transforms.SvgListAppend` | chalk/transform.py:115-116 | the SVG string of two lists of transforms joined is the two strings separated by one space |
| `Transforms.ProductAppend` | chalk/transform.py:111-113 | the matrix of two lists joined is the product of their matrices, the later list applied last |
| `Transforms.LeavesDetermine` | chalk/transform.py:104-116 | a transform's SVG string and its matrix are determined by its leaves alone |
| `Transforms.SameLeavesSameMeaning` | chalk/transform.py:104-116 | two transform trees with the same leaves denote the same matrix and print the same string, whatever their nesting |
| `BoundingBoxes.FromLimits` | chalk/bounding_box.py:14-32 | the built box has exactly the given edges, width `right - left` and height `bottom - top` |
| `BoundingBoxes.Left` | chalk/bounding_box.py:125-133 | the x of the top-left corner; `BoundingBoxes.FromLimits` states that it reads back the `left` the box was built with |
| `BoundingBoxes.Top` | chalk/bounding_box.py:135-143 | the y of the top-left corner; `BoundingBoxes.FromLimits` states that it reads back the `top` the box was built with |
| `BoundingBoxes.Right` | chalk/bounding_box.py:145-153 | the x of the bottom-right corner; `BoundingBoxes.FromLimits` states that it reads back the `right` the box was built with |
| `BoundingBoxes.Bottom` | chalk/bounding_box.py:155-163 | the y of the bottom-right corner; `BoundingBoxes.FromLimits` states that it reads back the `bottom` the box was built with |
| `BoundingBoxes.Width` | chalk/bounding_box.py:107-114 | `br.x - tl.x`; `BoundingBoxes.FromLimits` states that it is `right - left`, `BoundingBoxes.Shift` that moving keeps it |
| `BoundingBoxes.Height` | chalk/bounding_box.py:116-123 | `br.y - tl.y`; `BoundingBoxes.FromLimits` states that it is `bottom - top`, `BoundingBoxes.Shift` that moving keeps it |
| `BoundingBoxes.Tr` | chalk/bounding_box.py:49-57 | the top-right corner; `BoundingBoxes.CardinalPoints` states that it is the `NE` point |
| `BoundingBoxes.Bl` | chalk/bounding_box.py:59-67 | the bottom-left corner; `BoundingBoxes.CardinalPoints` states that it is the `SW` point |
| `BoundingBoxes.Center` | chalk/bounding_box.py:165-175 | the midpoint of the edges; `BoundingBoxes.CardinalPoints` states that it is the `C` point, `BoundingBoxes.Shift` that moving a box moves it by the offset |
| `BoundingBoxes.Empty` | chalk/bounding_box.py:34-47 | the empty box is proper, has zero width and height, and is centred on the origin |
| `BoundingBoxes.EmptyContainsOnlyOrigin` | chalk/bounding_box.py:34-47 | the only point the empty box contains is the origin |
| `BoundingBoxes.Cardinal` | chalk/bounding_box.py:69-105 | `cardinal` fails with `UnknownDirection` exactly for keys outside the nine directions; a point it finds lies in a proper box |
| `BoundingBoxes.CardinalPoints` | chalk/bounding_box.py:95-105 | the nine keys give the corners, the center, and the edge midpoints at the center's coordinates |
| `BoundingBoxes.Enclose` | chalk/bounding_box.py:177-191 | the enclosure contains the point, covers the old box, and stays proper |
| `BoundingBoxes.EncloseLeast` | chalk/bounding_box.py:177-191 | every box that covers the old box and contains the point covers the enclosure |
| `BoundingBoxes.EncloseInside` | chalk/bounding_box.py:177-191 | enclosing a point the box already contains returns the same box |
| `BoundingBoxes.Union` | chalk/bounding_box.py:210-228 | the union covers both boxes and is proper when either box is |
| `BoundingBoxes.UnionLeast` | chalk/bounding_box.py:210-228 | every box that covers both boxes covers their union |
| `BoundingBoxes.UnionContainsCorners` | chalk/bounding_box.py:224-228 | the union of two proper boxes contains all eight of their corners |
| `BoundingBoxes.UnionLaws` | chalk/bounding_box.py:210-228 | union is commutative, associative and idempotent |
| `BoundingBoxes.UnionAbsorbs` | chalk/bounding_box.py:210-228 | a box absorbs any box it covers; in particular the empty box disappears into a box that contains the origin |
| `BoundingBoxes.Normalize` | chalk/bounding_box.py:193-208 | re-bounding the min and max limits yields a proper box, and changes a box exactly when it is not proper |
| `BoundingBoxes.Shift` | chalk/bounding_box.py:193-208 | a moved box keeps its width, height and properness, and its center moves by the vector |
| `BoundingBoxes.ApplyTransform` | chalk/bounding_box.py:193-208 | the transformed box is always proper |
| `BoundingBoxes.ApplyTransformOf4` | chalk/bounding_box.py:193-208 | the transformed box is the box of the images of the four corners |
| `BoundingBoxes.ApplyTransformTight` | chalk/bounding_box.py:193-208 | the transformed box contains the images of the four corners, and every box that contains them covers it |
| `BoundingBoxes.ApplyCongruent` | chalk/bounding_box.py:193-208 | the transformed box depends only on the transform's matrix |
| `BoundingBoxes.ApplyIdentity` | chalk/bounding_box.py:193-208 | the identity turns a box right side out, and leaves it unchanged exactly when it is proper |
| `BoundingBoxes.ApplyTranslate` | chalk/bounding_box.py:193-208 | a translation shifts every edge of the normalized box by the offset |
| `BoundingBoxes.EncloseShift` | chalk/bounding_box.py:177-191 | enclosure commutes with moving both the box and the point |
| `BoundingBoxes.ApplyThenTranslate` | chalk/bounding_box.py:193-208 | translating after any transform moves the transformed box by the offset |
| `Styles.M` | chalk/style.py:9-10 | `m(a, b)` is `a` unless `a` is None, and then `b` |
| `Styles.MLaws` | chalk/style.py:9-10 | `m` has None as a two-sided unit and is associative and idempotent |
| `Styles.Default` | chalk/style.py:27-29 | the default style sets no field |
| `Styles.Merge` | chalk/style.py:31-45 | `s.merge(o)`, each field `m(o.f, s.f)`, read through `Styles.M`'s contract (the other style's value when set); `Styles.MergeLaws` states its unit, associativity, idempotence and absorption, `Styles.ToSvgMerge` what the merged style prints |
| `Styles.MergeLaws` | chalk/style.py:31-45 | the default style is a two-sided unit of merge; merge is associative and idempotent, and merging the same style twice is merging it once |
| `Styles.ToSvg` | chalk/style.py:76-96 | the style attribute string; `Styles.PiecesPresent`, `ToSvgEmpty` and `ToSvgMerge` state which pieces it prints |
| `Styles.PiecesPresent` | chalk/style.py:76-96 | each SVG piece is printed exactly when its field is set |
| `Styles.ToSvgEmpty` | chalk/style.py:76-96 | the printed style is empty exactly for the default style |
| `Styles.ToSvgMerge` | chalk/style.py:76-96 | printing a merged style prints, field by field, the other style's piece when it sets that field, else the style's own |
| `LegacyBoundingBoxes.ToChalk` | diagrams/bounding_box.py:8-18 | an older box read as a newer one keeps both corners |
| `LegacyBoundingBoxes.FromLimits` | diagrams/bounding_box.py:12-18 | the older `from_limits`; `LegacyBoundingBoxes.AgreesWithChalk` states that it agrees with the newer one |
| `LegacyBoundingBoxes.Empty` | diagrams/bounding_box.py:20-22 | the older origin box; `LegacyBoundingBoxes.AgreesWithChalk` states that it agrees with the newer one |
| `LegacyBoundingBoxes.Left` | diagrams/bounding_box.py:40-42 | the older left edge; `LegacyBoundingBoxes.AgreesWithChalk` states that it agrees with the newer one |
| `LegacyBoundingBoxes.Top` | diagrams/bounding_box.py:44-46 | the older top edge; `LegacyBoundingBoxes.AgreesWithChalk` states that it agrees with the newer one |
| `LegacyBoundingBoxes.Right` | diagrams/bounding_box.py:48-50 | the older right edge; `LegacyBoundingBoxes.AgreesWithChalk` states that it agrees with the newer one |
| `LegacyBoundingBoxes.Bottom` | diagrams/bounding_box.py:52-54 | the older bottom edge; `LegacyBoundingBoxes.AgreesWithChalk` states that it agrees with the newer one |
| `LegacyBoundingBoxes.Width` | diagrams/bounding_box.py:32-34 | the older width; `LegacyBoundingBoxes.AgreesWithChalk` states that it agrees with the newer one |
| `LegacyBoundingBoxes.Height` | diagrams/bounding_box.py:36-38 | the older height; `LegacyBoundingBoxes.AgreesWithChalk` states that it agrees with the newer one |
| `LegacyBoundingBoxes.Tr` | diagrams/bounding_box.py:24-26 | the older top-right corner; `LegacyBoundingBoxes.AgreesWithChalk` states that it agrees with the newer one |
| `LegacyBoundingBoxes.Bl` | diagrams/bounding_box.py:28-30 | the older bottom-left corner; `LegacyBoundingBoxes.AgreesWithChalk` states that it agrees with the newer one |
| `LegacyBoundingBoxes.Center` | diagrams/bounding_box.py:56-60 | the older center; `LegacyBoundingBoxes.AgreesWithChalk` states that it agrees with the newer one |
| `LegacyBoundingBoxes.Enclose` | diagrams/bounding_box.py:62-68 | the older enclose; `LegacyBoundingBoxes.EncloseAndTransform` states that it contains the point and covers the box |
| `LegacyBoundingBoxes.ApplyTransform` | diagrams/bounding_box.py:70-77 | the older transformed box; `LegacyBoundingBoxes.EncloseAndTransform` and `AgreesWithChalk` state its properties |
| `LegacyBoundingBoxes.Union` | diagrams/bounding_box.py:79-84 | the older union; `LegacyBoundingBoxes.UnionLaws` states its laws, `AgreesWithChalk` its agreement with the newer one |
| `LegacyBoundingBoxes.AgreesWithChalk` | diagrams/bounding_box.py:8-84 | every operation of the older box agrees with the newer one's: from_limits, empty, corners, edges, width, height, center, enclose, apply_transform and union |
| `LegacyBoundingBoxes.UnionLaws` | diagrams/bounding_box.py:79-84 | the older union is commutative, associative and idempotent |
| `LegacyBoundingBoxes.EncloseAndTransform` | diagrams/bounding_box.py:62-77 | enclose contains the point and covers the old box; the transformed box contains the four corner images, and a translation shifts a proper box's edges exactly |
| `LegacyStyles.Upgrade` | diagrams/style.py:22-27 | an older style read as a newer one keeps its four fields and sets no fill opacity |
| `LegacyStyles.Default` | diagrams/style.py:28-30 | the older default style; `LegacyStyles.AgreesWithChalk` states that it upgrades to the newer default |
| `LegacyStyles.Merge` | diagrams/style.py:32-38 | the older merge; `LegacyStyles.AgreesWithChalk` and `LegacyStyles.MergeLaws` state its agreement and laws |
| `LegacyStyles.ToSvg` | diagrams/style.py:64-72 | the older style string; `LegacyStyles.AgreesWithChalk` states that it prints fill, stroke and stroke-width only |
| `LegacyStyles.AgreesWithChalk` | diagrams/style.py:28-72 | the older merge and default agree with the newer ones; the older SVG string is the newer fill, stroke and stroke-width pieces |
| `LegacyStyles.MergeLaws` | diagrams/style.py:28-72 | the default is a two-sided unit of merge; merge is associative and idempotent; the default prints as the empty string, and so, among styles without dashing, does only the default |
| `Shapes.PointsBox` | chalk/shape.py:130-134 | a path's box fails with `EmptyPath` exactly when there are no points |
| `Shapes.PathBoundingBox` | chalk/shape.py:130-134 | the enclosing loop computes the path's box |
| `Shapes.PointsFoldCovers` | chalk/shape.py:130-134 | enclosing points one by one covers the start box, contains every point and keeps properness |
| `Shapes.PointsFoldLeast` | chalk/shape.py:130-134 | any box that covers the start box and contains every point covers the fold |
| `Shapes.PointsFoldAttained` | chalk/shape.py:130-134 | each edge of the fold is the start box's edge or some point's coordinate |
| `Shapes.PointsBoxTight` | chalk/shape.py:130-134 | a path's box is proper, contains every point, is covered by every box that does, and each edge is some point's coordinate |
| `Shapes.PointsBoxShift` | chalk/shape.py:130-134 | moving every point of a path moves its box by the same vector |
| `Shapes.ShapeBox` | chalk/shape.py:130-134 | a shape's box fails, with `EmptyPath`, exactly for a path without points |
| `Shapes.CenteredBox` | chalk/shape.py:61-66 | the box a rectangle or spacer reports; `Shapes.ShapeBoxGeometry` states that it is centred on the origin with the given sizes |
| `Shapes.ShapeBoxGeometry` | chalk/shape.py:41-66 | a circle's box runs from `(-r,-r)` to `(r,r)`; rectangles and spacers are centred on the origin with their width and height, and are proper exactly for non-negative sizes |
| `Shapes.FromListOfTuples` | chalk/shape.py:99-104 | one point per pair, in order, with the given arrow flag |
| `Shapes.TuplesRoundTrip` | chalk/shape.py:99-104 | building a path from pairs and reading the pairs back are inverse |
| `Shapes.Hrule` | chalk/shape.py:106-108 | `Path.hrule(length)`; `Shapes.RulesGeometry` states its two points and its box |
| `Shapes.Vrule` | chalk/shape.py:110-112 | `Path.vrule(length)`; `Shapes.RulesGeometry` states its two points and its box |
| `Shapes.RulesGeometry` | chalk/shape.py:106-112 | `hrule` and `vrule` are two points at minus and plus half the length on their axis; their boxes are centred on the origin with extent equal to the absolute length |
| `Shapes.TransformPath` | chalk/shape.py:136-137 | a transformed path has as many points and no arrow |
| `Shapes.TransformPathLaws` | chalk/shape.py:136-137 | each point is mapped in place; transforming twice is transforming by the Compose; the identity only drops the arrow |
| `Shapes.TransformPathBox` | chalk/shape.py:130-137 | the transformed path's box contains the image of every point |
| `Shapes.TranslatePathBox` | chalk/shape.py:130-137 | a translated path's box is the path's box moved by the offset |
| `Shapes.PolygonPrefix` | chalk/shape.py:116-121 | the first `k` vertices the loop appends, vertex `s` at angle `2 pi s / sides + pi sides / 2 + rotation` |
| `Shapes.Polygon` | chalk/shape.py:114-122 | `polygon` with no sides fails with `DivisionByZero`; otherwise it is the path of its `sides + 1` vertices |
| `Shapes.PolygonShape` | chalk/shape.py:114-122 | a polygon with `n > 0` sides has `n + 1` points, none when `n < 0`, and its last point is its first when cos and sin have period `2 pi` |
| `Shapes.RegularPolygon` | chalk/shape.py:124-128 | `regular_polygon` is `polygon` with radius `side_length / (2 sin(pi / sides))`, and fails when that divides by zero |
| `SegmentPaths.FromPoints` | chalk/shapes/path.py:35-39 | `from_points` has one segment fewer than points, and segment `i` joins points `i` and `i + 1` |
| `SegmentPaths.FromListOfTuples` | chalk/shapes/path.py:45-48 | `from_points` of the pairs' points; `SegmentPaths.FromPoints` states the segments this gives |
| `SegmentPaths.FromPairs` | chalk/shapes/path.py:41-43 | one segment per pair |
| `SegmentPaths.FromPairsRoundTrip` | chalk/shapes/path.py:41-43 | segment `i` joins the two points of pair `i`, so reading the pairs back returns them |
| `SegmentPaths.Ends` | chalk/shapes/path.py:50-56 | the end points of the segments, in order |
| `SegmentPaths.PointsOf` | chalk/shapes/path.py:50-56 | the points `points()` lists; `SegmentPaths.PathPoints` states that the loop computes them, `SegmentPaths.PointsOfShape` their count and order |
| `SegmentPaths.PathPoints` | chalk/shapes/path.py:50-56 | the `points()` loop lists the first segment's start and then every segment's end |
| `SegmentPaths.PointsOfShape` | chalk/shapes/path.py:50-56 | a path with segments lists one point more than it has segments, starting at the first start; a path without segments lists none |
| `SegmentPaths.JoinedPoints` | chalk/shapes/path.py:50-56 | segments that join consecutive points list those points again |
| `SegmentPaths.PointsRoundTrip` | chalk/shapes/path.py:35-56 | `from_points(pts).points() == pts` whenever there are at least two points |
| `SegmentPaths.FewPoints` | chalk/shapes/path.py:35-39 | with fewer than two points there is no segment and no point |
| `SegmentPaths.FromPoint` | chalk/shapes/path.py:31-33 | `from_point(p)`; `SegmentPaths.FromPointPoints` states that it is one segment listing `[p, p]` |
| `SegmentPaths.FromPointPoints` | chalk/shapes/path.py:31-33 | `from_point(p)` is one degenerate segment listing `[p, p]` |
| `SegmentPaths.Hrule` | chalk/shapes/path.py:58-60 | `Path.hrule(length)`; `SegmentPaths.RuleSegments` states its one horizontal segment |
| `SegmentPaths.Vrule` | chalk/shapes/path.py:62-64 | `Path.vrule(length)`; `SegmentPaths.RuleSegments` states its one vertical segment |
| `SegmentPaths.RuleSegments` | chalk/shapes/path.py:58-64 | each rule is one segment from minus to plus half the length on its axis |
| `SegmentPaths.ApplyTransform` | chalk/shapes/path.py:110-111 | transforming keeps the segment count |
| `SegmentPaths.ApplyTransformLaws` | chalk/shapes/path.py:110-111 | each segment is transformed in place, and transforming twice is transforming by the composite |
| `SegmentPaths.ApplyTransformPoints` | chalk/shapes/path.py:110-111 | when segments map their ends pointwise, the transformed path lists the images of the points, as many as before |
| `SegmentPaths.IsClosed` | chalk/shapes/path.py:113-119 | `is_closed()`; `SegmentPaths.IsClosedCases` and `IsClosedFromPoints` state when it holds, `LengthThreshold` that its squared test is the source's length test |
| `SegmentPaths.LengthThreshold` | chalk/shapes/path.py:116-117 | the length test `< 1e-3` is the squared-length test `< 1e-6` |
| `SegmentPaths.IsClosedFromPoints` | chalk/shapes/path.py:113-119 | a path from points is closed exactly when it has at least two points and its last point lies within `1e-3` of its first |
| `SegmentPaths.IsClosedCases` | chalk/shapes/path.py:113-119 | no segments means not closed; a first start equal to the last end means closed |
| `SegmentPaths.Rectangle` | chalk/shapes/path.py:66-74 | `Path.rectangle(width, height)`; `SegmentPaths.RectangleClosed` states its four segments, five corners and closedness |
| `SegmentPaths.RectangleClosed` | chalk/shapes/path.py:66-74 | the rectangle has four segments round its corners, lists its five corner points, and is closed |
| `SegmentPaths.Polygon` | chalk/shapes/path.py:76-84 | `polygon` fails with `DivisionByZero` for no sides, and otherwise joins the same vertices as shape.py's polygon |
| `SegmentPaths.PolygonClosed` | chalk/shapes/path.py:76-84 | a polygon with `n > 0` sides has `n` segments and is closed when cos and sin have period `2 pi` |
| `SegmentPaths.RegularPolygon` | chalk/shapes/path.py:86-90 | `regular_polygon` is `polygon` with radius `side_length / (2 sin(pi / sides))`, and fails when that divides by zero |
| `Trails.Plus` | chalk/trail.py:21-31 | the sum has the offsets of both trails |
| `Trails.PlusLaws` | chalk/trail.py:21-31 | `+` is associative with the empty trail as unit, and the sum is the first offsets followed by the second |
| `Trails.Differences` | chalk/trail.py:43-44 | one offset per consecutive pair of points, offset `i` leading from point `i` to point `i + 1` |
| `Trails.FromPath` | chalk/trail.py:33-45 | a path's trail is the differences of its points |
| `Trails.Positions` | chalk/trail.py:57-60 | the path of a trail has one point more than offsets and starts at the origin given |
| `Trails.ToPath` | chalk/trail.py:47-60 | the loop that appends `points[-1] + s` builds those positions, without an arrow |
| `Trails.PositionAt` | chalk/trail.py:57-59 | point `i + 1` is point `i` moved by offset `i` |
| `Trails.PositionsStep` | chalk/trail.py:57-59 | every point is the one before it moved by the matching offset |
| `Trails.PositionsUnique` | chalk/trail.py:57-59 | the positions are the only list that starts at the origin and steps by the offsets |
| `Trails.OffsetsRoundTrip` | chalk/trail.py:33-60 | `Trail.from_path(t.to_path(o))` has the offsets of `t` |
| `Trails.PointsRoundTrip` | chalk/trail.py:33-60 | a path with `n >= 1` points gives `n - 1` offsets, and laying them out from the first point recovers the points |
| `Trails.EmptyPathTrail` | chalk/trail.py:33-60 | a path without points gives no offsets; no offsets lay out as the origin alone |
| `Trails.PositionsPlus` | chalk/trail.py:21-60 | a sum of trails lays out the first, then continues the second from its last point |
| `Trails.MapVectors` | chalk/trail.py:80 | each offset is transformed in place |
| `Trails.Transform` | chalk/trail.py:70-93 | transforming keeps the offset count |
| `Trails.VectorLaws` | chalk/point.py:99-110 | the identity leaves a vector alone; two transforms in turn are their Compose |
| `Trails.MapVectorsCompose` | chalk/trail.py:80 | mapping by `u` and then `t` is mapping by their Compose |
| `Trails.TransformCompose` | chalk/trail.py:70-93 | the identity changes no offset, and transforming twice is transforming by the Compose |
| `Trails.TransformPlus` | chalk/trail.py:21-93 | a sum of trails is transformed piece by piece |
| `Trails.TransformTranslate` | chalk/trail.py:70-80 | a translation adds its offset to every offset, since vectors transform as points |
| `Trails.UnitPaths` | chalk/trail.py:96-97 | `unit_x` and `unit_y` lead one unit along their axis |
| `Trails.Stroke` | chalk/trail.py:62-68 | `stroke` is the primitive of the trail's path from the origin, with the default style and no transform |
| `Core.Base` | chalk/core.py:721-803 | looking through transform, style and name wrappers reaches an Empty, a Primitive or a Compose |
| `Core.GetBoundingBox` | chalk/core.py:629-640 | every box the query returns is proper, and it fails, with `EmptyPath`, exactly when it reaches a path without points |
| `Core.BoxCongruent` | chalk/core.py:727-730 | the box of a diagram depends on the transform only through its matrix |
| `Core.BoxOfWrappers` | chalk/core.py:760-790 | style and name wrappers leave the box unchanged; a diagram that reaches Empty has the origin box under any transform |
| `Core.BoxThenTranslate` | chalk/core.py:727-730 | unless the diagram reaches Empty, translating after a transform moves the box by the offset |
| `Core.TranslatedBox` | chalk/core.py:727-730 | wrapping a diagram in a translation moves its box by the offset, except a diagram that reaches Empty |
| `Core.PrimApplyTransform` | chalk/core.py:604-614 | a transformed primitive keeps shape and style and puts the new transform in front of its own |
| `Core.PrimApplyStyle` | chalk/core.py:616-627 | a styled primitive keeps shape and transform and merges the new style over its own |
| `Core.MapTransform` | chalk/core.py:739-744 | transforming a list of primitives transforms each in place |
| `Core.MapStyle` | chalk/core.py:770-774 | styling a list of primitives styles each in place |
| `Core.ToList` | chalk/core.py:642-652 | `to_list` returns primitives only |
| `Core.ListShapes` | chalk/core.py:642-652 | the shapes of a list of primitives, one per primitive |
| `Core.ToListShapes` | chalk/core.py:708-710 | for every transform `t`, `to_list` lists the shapes of the tree's primitives left to right: Compose lists its first child first, Empty none, a primitive one, and the wrappers keep length and order |
| `Core.Placements` | chalk/core.py:642-652 | one placement per primitive |
| `Core.PlacementsAppend` | chalk/core.py:708-710 | the placements of two lists joined are the placements of each |
| `Core.FlattenLifts` | chalk/core.py:739-774 | reading the tree top-down under a context is `to_list` at the identity read under that context |
| `Core.ToListFlattens` | chalk/core.py:642-803 | `to_list()` draws each primitive with its own style merged under the styles above it and its transform followed by the transforms above it, as an independent top-down flattening says |
| `Core.LiftFromOrigin` | chalk/core.py:642-652 | under the identity matrix and the default style the placements are unchanged |
| `Core.LiftedList` | chalk/core.py:739-744 | a transformed list seen from a context is the list seen from the context with the transform applied first |
| `Core.StyledList` | chalk/core.py:770-774 | a styled list seen from a context is the list seen from the context with the style merged under it |
| `Core.Lookup` | chalk/core.py:699-706 | the reference lookup finds nothing exactly when no entry bears the name |
| `Core.LookupAppend` | chalk/core.py:699-706 | looking in two lists joined looks in the second only if the first has no match |
| `Core.GetSubdiagramBoundingBox` | chalk/core.py:699-706 | the named search; `Core.SubdiagramLookup` states that it is the reference first-match lookup, `Core.SubdiagramNotFound` when it finds nothing |
| `Core.SubdiagramLookup` | chalk/core.py:699-706 | the named search returns the box of the first visible name node with that name, left to right, under its transform |
| `Core.SubdiagramNotFound` | chalk/core.py:792-799 | the search returns None exactly when no visible name node bears the name |
| `Core.Transformed` | chalk/core.py:604-614 | `Diagram.apply_transform` with `Primitive`'s override; `Core.TransformedBox` and `TransformedPlacements` state that the two routes agree |
| `Core.TransformedBox` | chalk/core.py:431-441 | `Diagram.apply_transform` and `Primitive.apply_transform` give the same box |
| `Core.TransformedPlacements` | chalk/core.py:604-614 | both ways of applying a transform draw the same placements |
| `Core.Named` | chalk/core.py:557-566 | a named diagram answers its name with its box, every other name with None, and keeps its box |
| `Core.LineWidth` | chalk/core.py:446-456 | the box is unchanged, and each primitive keeps its shape and transform and gets the width |
| `Core.LineColor` | chalk/core.py:458-468 | the box is unchanged, and each primitive keeps its shape and transform and gets the line colour |
| `Core.FillColor` | chalk/core.py:470-479 | the box is unchanged, and each primitive keeps its shape and transform and gets the fill colour |
| `Core.FillOpacity` | chalk/core.py:481-490 | the box is unchanged, and each primitive keeps its shape and transform and gets the opacity |
| `Core.Dashing` | chalk/core.py:492-506 | the box is unchanged, and each primitive keeps its shape and transform and gets the dash pattern |
| `Core.CachedBox` | chalk/core.py:695-697 | at the identity a Compose reports its cached box, put right side out |
| `Core.Atop` | chalk/core.py:148-165 | `a.atop(b)`; `Core.AtopBox` states its failure condition, its union box and its drawing order |
| `Core.AtopBox` | chalk/core.py:148-165 | atop fails exactly when a box does; its box is the union of the two boxes, and it lists the first diagram's primitives before the second's |
| `Core.PlacingFails` | chalk/core.py:169-231 | beside, above, above2 and at_center (chalk/core.py:508-528) fail exactly when one of the two boxes does |
| `Core.TranslatedBoxOk` | chalk/core.py:431-441 | a translated diagram's box is its box moved by the offset, except a diagram that reaches Empty, whose box is the origin box |
| `Core.MoveSecond` | chalk/core.py:186-187 | the node `beside`, `above` and `at_center` build; `Core.MoveSecondBox` states its cached box and drawing order |
| `Core.MoveSecondBox` | chalk/core.py:169-189 | the node that moves the second diagram caches the union with the moved box, and draws both diagrams' shapes in order |
| `Core.MoveFirst` | chalk/core.py:230-231 | the node `above2` builds; `Core.MoveFirstBox` states its cached box and drawing order |
| `Core.MoveFirstBox` | chalk/core.py:213-231 | the node that moves the first diagram caches the union with the moved box, and draws both diagrams' shapes in order |
| `Core.BesideGeometry` | chalk/core.py:182-186 | two proper boxes set side by side touch, the second keeps its vertical extent, and the union is as wide as both |
| `Core.AboveGeometry` | chalk/core.py:204-208 | two proper boxes set one below the other touch, the second keeps its horizontal extent, and the union is as tall as both |
| `Core.Above2Geometry` | chalk/core.py:226-230 | moving the first box up onto the second makes them touch, and the union is as tall as both |
| `Core.Beside` | chalk/core.py:169-187 | `a.beside(b)`; `Core.BesideBox`, `BesideGeometry`, `PlacingFails` and `Chalk.BesidePlaces` state its box, its failures and its drawing order |
| `Core.BesideBox` | chalk/core.py:169-187 | beside moves the second box right until its left edge meets the first's right edge, keeps its vertical extent, and caches the union, as wide as both |
| `Core.Above` | chalk/core.py:191-209 | `a.above(b)`; `Core.AboveBox`, `AboveGeometry`, `PlacingFails` and `Chalk.AbovePlaces` state its box, its failures and its drawing order |
| `Core.AboveBox` | chalk/core.py:191-209 | above moves the second box down until its top edge meets the first's bottom edge, keeps its horizontal extent, and caches the union, as tall as both |
| `Core.Above2` | chalk/core.py:213-231 | `a.above2(b)`; `Core.Above2Box`, `Above2Geometry` and `PlacingFails` state its box and its failures |
| `Core.Above2Box` | chalk/core.py:213-231 | above2 moves the first box up until its bottom edge meets the second's top edge and leaves the second where it is |
| `Core.AtCenter` | chalk/core.py:508-528 | `a.at_center(b)`; `Core.AtCenterBox` and `PlacingFails` state its box and its failures |
| `Core.AtCenterBox` | chalk/core.py:508-528 | at_center moves the second box by the first box's center, so a second box centred on the origin ends up centred on the first |
| `Core.AlignFails` | chalk/core.py:235-284 | center_xy and the four edge alignments fail exactly when the box does |
| `Core.CenterXY` | chalk/core.py:235-244 | `center_xy()`; `Core.CenterXYBox` and `AlignFails` state its box and its failures |
| `Core.CenterXYBox` | chalk/core.py:235-244 | the centred box has its center on the origin and keeps its width and height |
| `Core.AlignT` | chalk/core.py:246-254 | `align_t()`; `Core.AlignVerticalBox` and `AlignFails` state its box and its failures |
| `Core.AlignB` | chalk/core.py:256-264 | `align_b()`; `Core.AlignVerticalBox` and `AlignFails` state its box and its failures |
| `Core.AlignVerticalBox` | chalk/core.py:246-264 | `align_t` puts the top edge at 0 and `align_b` the bottom edge, keeping the height and horizontal extent |
| `Core.AlignR` | chalk/core.py:266-274 | `align_r()`; `Core.AlignHorizontalBox` and `AlignFails` state its box and its failures |
| `Core.AlignL` | chalk/core.py:276-284 | `align_l()`; `Core.AlignHorizontalBox` and `AlignFails` state its box and its failures |
| `Core.AlignHorizontalBox` | chalk/core.py:266-284 | `align_r` puts the right edge at 0 and `align_l` the left edge, keeping the width and vertical extent |
| `Core.AlignTL` | chalk/core.py:286-292 | `align_tl()`; `Core.AlignCornerBox` and `AlignCornerFails` state its box and its failures |
| `Core.AlignBR` | chalk/core.py:294-300 | `align_br()`; `Core.AlignCornerBox` and `AlignCornerFails` state its box and its failures |
| `Core.AlignTR` | chalk/core.py:302-308 | `align_tr()`; `Core.AlignCornerBox` and `AlignCornerFails` state its box and its failures |
| `Core.AlignBL` | chalk/core.py:310-316 | `align_bl()`; `Core.AlignCornerBox` and `AlignCornerFails` state its box and its failures |
| `Core.AlignCornerBox` | chalk/core.py:286-316 | each corner alignment puts that corner on the origin and keeps the width and height |
| `Core.AlignCornerFails` | chalk/core.py:286-316 | the corner alignments fail exactly when the box does |
| `Core.PadFails` | chalk/core.py:318-403 | padding fails exactly when the box does |
| `Core.PadL` | chalk/core.py:318-333 | `pad_l(extra)`; `Core.PadLBox` and `PadFails` state its box and its failures |
| `Core.PadLBox` | chalk/core.py:318-333 | `pad_l` caches the box with only its left edge moved out, and draws the same primitives |
| `Core.PadT` | chalk/core.py:335-350 | `pad_t(extra)`; `Core.PadTBox` and `PadFails` state its box and its failures |
| `Core.PadTBox` | chalk/core.py:335-350 | `pad_t` caches the box with only its top edge moved out, and draws the same primitives |
| `Core.PadR` | chalk/core.py:352-367 | `pad_r(extra)`; `Core.PadRBox` and `PadFails` state its box and its failures |
| `Core.PadRBox` | chalk/core.py:352-367 | `pad_r` caches the box with only its right edge moved out, and draws the same primitives |
| `Core.PadB` | chalk/core.py:369-384 | `pad_b(extra)`; `Core.PadBBox` and `PadFails` state its box and its failures |
| `Core.PadBBox` | chalk/core.py:369-384 | `pad_b` caches the box with only its bottom edge moved out, and draws the same primitives |
| `Core.Pad` | chalk/core.py:386-403 | `pad(extra)`; `Core.PadAllBox` and `PadFails` state its box and its failures |
| `Core.PadAllBox` | chalk/core.py:386-403 | `pad(e)` moves every edge out by `e`; for `e >= 0` the box grows by `2e` each way about the same center |
| `Core.ScaleUniformToX` | chalk/core.py:405-416 | fails with `DivisionByZero` on a box of zero width; otherwise it scales both axes by the factor that takes the width to `x` |
| `Core.ScaleUniformToY` | chalk/core.py:418-429 | fails with `DivisionByZero` on a box of zero height; otherwise it scales both axes by the factor that takes the height to `y` |
| `Chalk.FromShape` | chalk/core.py:592-602 | `Primitive.from_shape(shape)`; `Chalk.FromShapeBox` states its box and the one shape it draws |
| `Chalk.EmptyDiagram` | chalk/__init__.py:33-34 | `empty()`; `Core.BoxOfWrappers` states that its box is the origin box |
| `Chalk.MakePath` | chalk/__init__.py:37-40 | `make_path(coords, arrow)`; `Chalk.FromShapeBox` and `Shapes.FromListOfTuples` state its shape and box |
| `Chalk.FromShapeBox` | chalk/core.py:592-602 | a shape made a diagram has the shape's box, right side out, fails exactly when the shape's box does, and draws that one shape |
| `Chalk.Polygon` | chalk/__init__.py:92-93 | the polygon diagram fails for no sides, and is otherwise the primitive of the polygon path |
| `Chalk.RegularPolygon` | chalk/__init__.py:96-97 | the regular polygon diagram is the primitive of the regular polygon path, failing when its radius divides by zero |
| `Chalk.Triangle` | chalk/__init__.py:108-109 | `triangle(w)` is the regular polygon with three sides of side `w` |
| `Chalk.Circle` | chalk/__init__.py:43-44 | `circle(radius)`; `Chalk.ConstructorBoxes` states its box |
| `Chalk.Rectangle` | chalk/__init__.py:112-115 | `rectangle(width, height, radius)`; `Chalk.ConstructorBoxes` states its box |
| `Chalk.Square` | chalk/__init__.py:122-123 | `square(side)`; `Chalk.ConstructorBoxes` states its box |
| `Chalk.Hrule` | chalk/__init__.py:100-101 | `hrule(length)`; `Chalk.ConstructorBoxes` states its box |
| `Chalk.Vrule` | chalk/__init__.py:104-105 | `vrule(length)`; `Chalk.ConstructorBoxes` states its box |
| `Chalk.ConstructorBoxes` | chalk/__init__.py:43-123 | circle, rectangle, square, hrule and vrule are centred on the origin with the sizes they are given |
| `Chalk.Concat` | chalk/__init__.py:156-157 | a `concat` that succeeds has a box that does not fail |
| `Chalk.ConcatFails` | chalk/__init__.py:156-157 | `concat` fails exactly when one of the diagrams' boxes fails, and `concat([])` is empty |
| `Chalk.UnionOf` | chalk/__init__.py:156-157 | the union of the origin box and every box is proper |
| `Chalk.UnionOfTight` | chalk/__init__.py:156-157 | that union contains the origin, covers every diagram's box, and lies inside every box that does both |
| `Chalk.ConcatBox` | chalk/__init__.py:156-157 | a `concat` that succeeds lists the diagrams' primitives in order and has that union as its box |
| `Chalk.ConcatShapes` | chalk/__init__.py:156-157 | a `concat` that succeeds draws the diagrams' shapes in order |
| `Chalk.HStrut` | chalk/__init__.py:160-163 | `hstrut(width)`; `Chalk.StrutBoxes` and `StrutSizes` state its box |
| `Chalk.VStrut` | chalk/__init__.py:174-177 | `vstrut(height)`; `Chalk.StrutBoxes` and `StrutSizes` state its box |
| `Chalk.StrutBoxes` | chalk/__init__.py:160-177 | struts never fail; without a size they are empty; with size `w >= 0` they are `w` wide (or tall) and flat, centred on the origin |
| `Chalk.StrutSizes` | chalk/__init__.py:160-177 | a strut's box does not fail, and a strut with a non-negative size has that width or height |
| `Chalk.BesidePlaces` | chalk/core.py:169-189 | beside fails with its parts, draws the first diagram then the second, keeps the first's left edge, and adds the widths |
| `Chalk.AbovePlaces` | chalk/core.py:191-211 | above fails with its parts, draws the first diagram then the second, keeps the first's top edge, and adds the heights |
| `Chalk.Between` | chalk/__init__.py:171 | the step `a, b -> a placed with m placed with b`; `Chalk.BetweenFails`, `BetweenJoins` and `BetweenExtends` state its failures, order and extent |
| `Chalk.BetweenFails` | chalk/__init__.py:171 | the step `a, b -> (a placed with m) placed with b` fails exactly when `a` or `b` fails, for an `m` that does not fail |
| `Chalk.BetweenJoins` | chalk/__init__.py:171 | that step draws `a`, then `m`, then `b` |
| `Chalk.BetweenExtends` | chalk/__init__.py:171 | that step keeps `a`'s edge and adds `m`'s extent and `b`'s |
| `Chalk.Reduce` | chalk/__init__.py:171 | `functools.reduce` of such a step from a start; `Chalk.ReduceFails`, `ReduceShapes` and `ReduceExtent` state its failures, order and extent |
| `Chalk.ReduceFails` | chalk/__init__.py:171 | a fold with such a step fails exactly when the start or one of the diagrams fails, and a fold over nothing is its start |
| `Chalk.ReduceShapes` | chalk/__init__.py:171 | such a fold draws the start, then each diagram preceded by the gap's shapes |
| `Chalk.ReduceExtent` | chalk/__init__.py:171 | such a fold keeps the start's edge and adds every extent and every gap |
| `Chalk.CatFails` | chalk/__init__.py:166-171 | a fold over a single diagram is that diagram; over more, it fails exactly when one of them does |
| `Chalk.CatDraws` | chalk/__init__.py:166-185 | a fold that succeeds draws the diagrams in order with the middle diagram between each pair, and adds up their extents and the gaps |
| `Chalk.HCat` | chalk/__init__.py:166-171 | `hcat(diagrams, sep)`; `Chalk.HCatLaws` states its empty and singleton cases, its failures, its order and its extent |
| `Chalk.HCatLaws` | chalk/__init__.py:166-171 | `hcat([])` is empty and `hcat([d])` is `d`; it fails exactly when one of two or more diagrams does; it draws the diagrams in order with a strut between each pair; and it keeps the first's left edge while its width is the sum of the widths plus `n - 1` times the separation, for a separation that is not negative |
| `Chalk.VCat` | chalk/__init__.py:180-185 | `vcat(diagrams, sep)`; `Chalk.VCatLaws` states its empty and singleton cases, its failures, its order and its extent |
| `Chalk.VCatLaws` | chalk/__init__.py:180-185 | `vcat([])` is empty and `vcat([d])` is `d`; it fails exactly when one of two or more diagrams does; it draws the diagrams in order with a strut between each pair; and it keeps the first's top edge while its height is the sum of the heights plus `n - 1` times the separation, for a separation that is not negative |
| `Chalk.HCatExtent` | chalk/__init__.py:166-171 | a successful `hcat` with a strut size that is not negative is as wide as the diagrams plus `n - 1` times the strut size |
| `Chalk.VCatExtent` | chalk/__init__.py:180-185 | a successful `vcat` with a strut size that is not negative is as tall as the diagrams plus `n - 1` times the strut size |
| `Chalk.GapsTimes` | chalk/__init__.py:166-185 | `n` struts of size `g` add up to `n * g` |
| `Chalk.Translated` | chalk/__init__.py:142-145 | one translated diagram per pair, up to the shorter list, each moved to its point |
| `Chalk.PointsOf` | chalk/__init__.py:142-145 | one point per coordinate pair |
| `Chalk.TranslatedOne` | chalk/__init__.py:142-145 | translating keeps a diagram's shapes and whether its box fails, and moves its box by the point, except a diagram that reaches Empty |
| `Chalk.PlacedLaws` | chalk/__init__.py:142-149 | setting the translated diagrams atop one another fails exactly when one of the paired diagrams fails; it draws their shapes in order and has the union of their moved boxes as its box |
| `Chalk.PlaceAt` | chalk/__init__.py:142-145 | `place_at(diagrams, points)`; `Chalk.PlaceAtLaws` states its pairing, failures, order and box |
| `Chalk.PlaceAtLaws` | chalk/__init__.py:142-145 | `place_at` pairs diagrams with points up to the shorter list; it fails exactly when a paired diagram does; it draws their shapes in order; its box is the union of the moved boxes, each shifted to its point |
| `Chalk.PlaceOnPath` | chalk/__init__.py:148-149 | `place_on_path(diagrams, path)`; `Chalk.PlaceOnPathLaws` states that it is `place_at` with the path's points |
| `Chalk.PlaceOnPathLaws` | chalk/__init__.py:148-149 | `place_on_path` is `place_at` with the path's points, and has the same properties |
| `Chalk.SubdiagramProper` | chalk/core.py:792-799 | a box the named search returns is proper |
| `Chalk.ConnectOuter` | chalk/__init__.py:192-205 | `connect_outer(d, name1, c1, name2, c2, arrow)`; `Chalk.ConnectOuterLaws` states when it succeeds, its failures and its path |
| `Chalk.ConnectOuterLaws` | chalk/__init__.py:192-205 | `connect_outer` succeeds exactly when both names are found and both directions are known; a missing first name is reported before a missing second; the result is the two-point path between the chosen cardinal points, each inside its box |
| `Chalk.Connect` | chalk/__init__.py:188-189 | `connect(d, name1, name2)`; `Chalk.ConnectLaws` states when it succeeds and the line between the centers |
| `Chalk.ConnectLaws` | chalk/__init__.py:188-189 | `connect` succeeds exactly when both names are found, and joins their centers, without an arrow |

## Left out

- Rendering and I/O: `display`, `render`, `render_svg`, `_repr_svg_`, the diagram and shape `to_svg` methods, `Style.render`, the TikZ backend and the utilities module. These emit cairo, SVG or LaTeX output and write files; no box or layout depends on them.
- Shapes whose boxes come from external libraries: `Arc`, `Text`, `Image` and `Latex`. Their boxes are computed by cairo, PIL or a LaTeX run. They are not constructors of `Shapes.Shape`. The same goes for `arc`, `text`, `image` and `latex` in `chalk/__init__.py`.
- `arc_between` (chalk/__init__.py:51-89): it needs `acos`, `sin` and vector angles, and builds an `Arc`.
- Transcendental maths:
  - `Rotate` carries its cosine and sine as two reals beside the angle.
  - `polygon` takes `cos` and `sin` as function parameters.
  - `rotate_by` prints `360 * turns` degrees, which is `(2 pi turns / pi) * 180` as the source computes it, with `pi` as the real `3.141592653589793`.
  - `Vector.length`, `angle`, `from_polar` and `rotate` are not modelled.
- Python's `str` of a float is the parameter `num` of every `to_svg` function. Nothing is claimed about its digits.
- Float rounding: coordinates are real numbers. The `1e-3` test of `is_closed` is stated on the squared length (`< 1e-6`), and `SegmentPaths.LengthThreshold` shows the two tests agree.
- Debug overlays `show_origin` and `show_bounding_box`: they only add coloured primitives through `colour.Color`.
- Modules not part of this model: chalk/arrow.py, chalk/model.py, chalk/shapes/__init__.py and chalk/shapes/latex.py. Also the envelope, trace, arc-segment and segment modules that chalk/shapes/path.py imports. Accordingly:
  - a segment's own `apply_transform` is a parameter `f` of `SegmentPaths.ApplyTransform`;
  - `get_envelope` and `get_trace` (chalk/shapes/path.py:92-98) are left out;
  - `make_path` and `stroke` of chalk/shapes/path.py (lines 18-19 and 100-108) are left out, because they build a diagram from a shape class in an unseen module.
- The documentation notebooks under `api/`.
- Core.ToList: for a transform other than `Identity`, the model states only that the shapes are listed in order (`Core.ToListShapes`), not the matrices. At an ApplyTransform node the source applies `t` a second time, and the library only ever calls `to_list` with the identity. `Core.ToListFlattens` states the full drawing at the identity.
- Chalk.PlaceOnPathLaws: `place_on_path` is modelled for a point-list `Path` (chalk/shape.py), the type its argument is declared with.
- Core.ScaleUniformToX: the scaled diagram is stated through its scale factor, not its new box.
- Core.ScaleUniformToY: the scaled diagram is stated through its scale factor, not its new box.
- The `atop`, `beside` and `above` functions of `chalk/__init__.py` only call the methods of the same name in `Core`, so they have no members of their own.
- The `__add__`, `__or__`, `__truediv__` and `__floordiv__` operator aliases, and `Vector.__rmul__`, are the same methods under other names.
