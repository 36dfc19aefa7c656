/** The older four-field style (diagrams/style.py).

    It has no fill opacity, and its `to_svg` prints only fill, stroke and
    stroke-width. It is modelled on its own and related to module Styles by
    reading an old style as a new one without fill opacity.
 */
module LegacyStyles {

  import opened Wrappers
  import S = Styles

  datatype Style = Style(
    lineWidth: Option<real>,
    lineColor: Option<S.Color>,
    fillColor: Option<S.Color>,
    dashing: Option<S.Dashing>)

  function Default(): Style {
    Style(None, None, None, None)
  }

  /** `s.merge(o)`: each field is `o`'s value when `o` sets it, else `s`'s. */
  function Merge(s: Style, o: Style): Style {
    Style(S.M(o.lineWidth, s.lineWidth),
          S.M(o.lineColor, s.lineColor),
          S.M(o.fillColor, s.fillColor),
          S.M(o.dashing, s.dashing))
  }

  /** `to_svg()`: fill, stroke and stroke-width only. */
  function ToSvg(s: Style, num: real -> string): string {
    (if s.fillColor.Some? then "fill: " + s.fillColor.value.hexL + ";" else "")
    + (if s.lineColor.Some? then "stroke: " + s.lineColor.value.hexL + ";" else "")
    + (if s.lineWidth.Some? then "stroke-width: " + num(s.lineWidth.value) + ";" else "")
  }

  /** An old style read as a new one: the same fields, no fill opacity. */
  function Upgrade(s: Style): (r: S.Style)
    ensures r.fillOpacity.None?
    ensures r.lineWidth == s.lineWidth && r.lineColor == s.lineColor
    ensures r.fillColor == s.fillColor && r.dashing == s.dashing
  {
    S.Style(s.lineWidth, s.lineColor, s.fillColor, None, s.dashing)
  }

  /** Merging and then upgrading is upgrading and then merging; the old
      `to_svg` is the new one's first three pieces. */
  lemma AgreesWithChalk(s: Style, o: Style, num: real -> string)
    ensures Upgrade(Merge(s, o)) == S.Merge(Upgrade(s), Upgrade(o))
    ensures Upgrade(Default()) == S.Default()
    ensures ToSvg(s, num)
         == S.FillSvg(Upgrade(s)) + S.StrokeSvg(Upgrade(s)) + S.StrokeWidthSvg(Upgrade(s), num)
  {
  }

  /** The default style is a two-sided unit; `merge` is associative and
      idempotent; the default prints as the empty string and every other
      style without a dash pattern prints something. */
  lemma MergeLaws(s: Style, o: Style, u: Style, num: real -> string)
    ensures Merge(s, Default()) == s && Merge(Default(), s) == s
    ensures Merge(Merge(s, o), u) == Merge(s, Merge(o, u))
    ensures Merge(s, s) == s
    ensures ToSvg(Default(), num) == ""
    ensures s.dashing.None? ==> (ToSvg(s, num) == "" <==> s == Default())
  {
    S.MergeLaws(Upgrade(s), Upgrade(o), Upgrade(u));
    AgreesWithChalk(s, o, num);
    AgreesWithChalk(Merge(s, o), u, num);
    AgreesWithChalk(o, u, num);
    AgreesWithChalk(s, Merge(o, u), num);
    AgreesWithChalk(s, Default(), num);
    AgreesWithChalk(Default(), s, num);
    AgreesWithChalk(s, s, num);
    S.PiecesPresent(Upgrade(s), num);
    var a, b, c := S.FillSvg(Upgrade(s)), S.StrokeSvg(Upgrade(s)), S.StrokeWidthSvg(Upgrade(s), num);
    assert |ToSvg(s, num)| == |a| + |b| + |c|;
  }
}
