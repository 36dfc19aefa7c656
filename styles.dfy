/** Drawing styles (chalk/style.py).

    Every field is optional. `merge` combines two styles field by field,
    taking the other style's value wherever it has one; `to_svg` prints the
    fields that are set. A colour is reduced to the `hex_l` string the SVG
    output uses; Python's `str` of a float is the parameter `num`.
 */
module Styles {

  import opened Wrappers

  /** A `colour.Color`, as far as the style uses it. */
  datatype Color = Color(hexL: string)

  /** The `(strokes, offset)` pair of a dash pattern. */
  datatype Dashing = Dashing(strokes: seq<real>, offset: real)

  datatype Style = Style(
    lineWidth: Option<real>,
    lineColor: Option<Color>,
    fillColor: Option<Color>,
    fillOpacity: Option<real>,
    dashing: Option<Dashing>)

  /** `m(a, b)`: `a` unless it is None. */
  function M<T>(a: Option<T>, b: Option<T>): (r: Option<T>)
    ensures r == a || r == b
    ensures r.None? <==> a.None? && b.None?
    ensures a.Some? ==> r == a
  {
    if a.Some? then a else b
  }

  /** `m` is associative and idempotent, None is a unit on either side, and
      it keeps the first value that is set. */
  lemma MLaws<T>(a: Option<T>, b: Option<T>, c: Option<T>)
    ensures M(a, None) == a && M(None, b) == b
    ensures M(M(a, b), c) == M(a, M(b, c))
    ensures M(a, a) == a
    ensures M(a, M(b, a)) == M(a, b)
  {
  }

  /** `Style.default()`: nothing set. */
  function Default(): (r: Style)
    ensures r.lineWidth.None? && r.lineColor.None? && r.fillColor.None?
    ensures r.fillOpacity.None? && r.dashing.None?
  {
    Style(None, None, None, None, None)
  }

  /** `s.merge(o)`: each field is `o`'s value when `o` sets it, else `s`'s. */
  function Merge(s: Style, o: Style): Style {
    Style(M(o.lineWidth, s.lineWidth),
          M(o.lineColor, s.lineColor),
          M(o.fillColor, s.fillColor),
          M(o.fillOpacity, s.fillOpacity),
          M(o.dashing, s.dashing))
  }

  /** The default style is a two-sided unit of `merge`, and `merge` is
      associative and idempotent. Merging `o` a second time changes nothing. */
  lemma MergeLaws(s: Style, o: Style, u: Style)
    ensures Merge(s, Default()) == s && Merge(Default(), s) == s
    ensures Merge(Merge(s, o), u) == Merge(s, Merge(o, u))
    ensures Merge(s, s) == s
    ensures Merge(Merge(s, o), o) == Merge(s, o)
  {
    MLaws(u.lineWidth, o.lineWidth, s.lineWidth);
    MLaws(u.lineColor, o.lineColor, s.lineColor);
    MLaws(u.fillColor, o.fillColor, s.fillColor);
    MLaws(u.fillOpacity, o.fillOpacity, s.fillOpacity);
    MLaws(u.dashing, o.dashing, s.dashing);
  }

  // `to_svg`: one piece per field, each ending in ";", in a fixed order.

  /** `' '.join(map(str, xs))`. */
  function JoinNums(xs: seq<real>, num: real -> string): string {
    if |xs| == 0 then ""
    else if |xs| == 1 then num(xs[0])
    else num(xs[0]) + " " + JoinNums(xs[1..], num)
  }

  function FillSvg(s: Style): string {
    if s.fillColor.Some? then "fill: " + s.fillColor.value.hexL + ";" else ""
  }

  function StrokeSvg(s: Style): string {
    if s.lineColor.Some? then "stroke: " + s.lineColor.value.hexL + ";" else ""
  }

  function StrokeWidthSvg(s: Style, num: real -> string): string {
    if s.lineWidth.Some? then "stroke-width: " + num(s.lineWidth.value) + ";" else ""
  }

  function FillOpacitySvg(s: Style, num: real -> string): string {
    if s.fillOpacity.Some? then "fill-opacity: " + num(s.fillOpacity.value) + ";" else ""
  }

  /** The dash pattern prints its strokes only; the offset is not printed. */
  function DashSvg(s: Style, num: real -> string): string {
    if s.dashing.Some? then "stroke-dasharray: " + JoinNums(s.dashing.value.strokes, num) + ";"
    else ""
  }

  /** `to_svg()`: fill, stroke, stroke-width, fill-opacity, stroke-dasharray. */
  function ToSvg(s: Style, num: real -> string): string {
    FillSvg(s) + StrokeSvg(s) + StrokeWidthSvg(s, num) + FillOpacitySvg(s, num) + DashSvg(s, num)
  }

  /** A piece is printed exactly when its field is set. */
  lemma PiecesPresent(s: Style, num: real -> string)
    ensures FillSvg(s) != "" <==> s.fillColor.Some?
    ensures StrokeSvg(s) != "" <==> s.lineColor.Some?
    ensures StrokeWidthSvg(s, num) != "" <==> s.lineWidth.Some?
    ensures FillOpacitySvg(s, num) != "" <==> s.fillOpacity.Some?
    ensures DashSvg(s, num) != "" <==> s.dashing.Some?
  {
  }

  /** The printed style is empty exactly for the default style. */
  lemma ToSvgEmpty(s: Style, num: real -> string)
    ensures ToSvg(s, num) == "" <==> s == Default()
  {
    PiecesPresent(s, num);
    var a, b, c, d, e := FillSvg(s), StrokeSvg(s), StrokeWidthSvg(s, num),
                         FillOpacitySvg(s, num), DashSvg(s, num);
    assert |ToSvg(s, num)| == |a| + |b| + |c| + |d| + |e|;
  }

  /** Printing a merged style prints, for each field, the other style's piece
      when it sets that field and this style's piece otherwise. */
  lemma ToSvgMerge(s: Style, o: Style, num: real -> string)
    ensures FillSvg(Merge(s, o)) == if o.fillColor.Some? then FillSvg(o) else FillSvg(s)
    ensures StrokeSvg(Merge(s, o)) == if o.lineColor.Some? then StrokeSvg(o) else StrokeSvg(s)
    ensures StrokeWidthSvg(Merge(s, o), num)
         == if o.lineWidth.Some? then StrokeWidthSvg(o, num) else StrokeWidthSvg(s, num)
    ensures FillOpacitySvg(Merge(s, o), num)
         == if o.fillOpacity.Some? then FillOpacitySvg(o, num) else FillOpacitySvg(s, num)
    ensures DashSvg(Merge(s, o), num)
         == if o.dashing.Some? then DashSvg(o, num) else DashSvg(s, num)
  {
  }
}
