/**
 * The pieces of the SVG document as records, and the markup the source's
 * template strings make of them. Numbers are written by an injected
 * formatter, standing in for JavaScript's number-to-string conversion.
 */
module Svg {
  import opened Wrappers

  /** A `<line>` element; `color` is present exactly when it has a `stroke` attribute. */
  datatype Stroke = Stroke(x1: real, y1: real, x2: real, y2: real, color: Option<string>)

  /** A `<rect>` element. */
  datatype Rect = Rect(x: real, y: real, width: real, height: real, fill: Option<string>)

  /** The "code block" group: one entry per code line, `None` for a skipped line. */
  datatype CodeBlockGroup = CodeBlockGroup(lineCap: string, strokeWidth: real, lines: seq<Option<seq<Stroke>>>)

  /** The "line numbers" group: one tick per row, all in the group's stroke colour. */
  datatype LineNumberGroup = LineNumberGroup(color: Option<string>, lineCap: string, strokeWidth: real, ticks: seq<Stroke>)

  datatype SvgDocument = SvgDocument(
    width: real,
    height: real,
    background: Rect,
    codeBlock: CodeBlockGroup,
    lineNumbers: Option<LineNumberGroup>)

  type Format = real -> string

  /** A template literal's rendering of a value that is a string or `undefined`. */
  function Interpolate(v: Option<string>): string {
    match v
    case None => "undefined"
    case Some(s) => s
  }

  function Attribute(name: string, value: string): string {
    name + "=\"" + value + "\""
  }

  /** Each attribute followed by a space, in order. */
  function Attributes(attrs: seq<(string, string)>): string {
    if attrs == [] then ""
    else Attributes(attrs[..|attrs| - 1]) + Attribute(attrs[|attrs| - 1].0, attrs[|attrs| - 1].1) + " "
  }

  /** A `<line>` element; the `stroke` attribute is written only when the stroke has a colour. */
  function StrokeText(s: Stroke, fmt: Format): string {
    "<line "
      + Attributes([("x1", fmt(s.x1)), ("y1", fmt(s.y1)), ("x2", fmt(s.x2)), ("y2", fmt(s.y2))]
                   + (if s.color.Some? then [("stroke", s.color.value)] else []))
      + "/>"
  }

  /** What `drawLine` returns: the element, or the empty string when there is no stroke. */
  function DrawLineText(r: Option<Stroke>, fmt: Format): string {
    match r
    case None => ""
    case Some(s) => StrokeText(s, fmt)
  }

  const STROKE_INDENT := "      "

  /** Each stroke on its own indented line. */
  function StrokeLines(strokes: seq<Stroke>, fmt: Format): string {
    if strokes == [] then ""
    else StrokeLines(strokes[..|strokes| - 1], fmt) + STROKE_INDENT + StrokeText(strokes[|strokes| - 1], fmt) + "\n"
  }

  const CODE_LINE_OPEN := "    <g class=\"code line\">\n"
  const CODE_LINE_CLOSE := "    </g>\n"

  /**
   * What `createCodeLine` returns: nothing at all for a skipped line, and
   * otherwise a group, never empty even when the line has no strokes.
   */
  function CodeLineText(g: Option<seq<Stroke>>, fmt: Format): (t: string)
    ensures t == "" <==> g.None?
  {
    match g
    case None => ""
    case Some(strokes) => CODE_LINE_OPEN + StrokeLines(strokes, fmt) + CODE_LINE_CLOSE
  }

  function CodeLinesText(groups: seq<Option<seq<Stroke>>>, fmt: Format): string {
    if groups == [] then ""
    else CodeLinesText(groups[..|groups| - 1], fmt) + CodeLineText(groups[|groups| - 1], fmt)
  }

  function CodeBlockOpen(lineCap: string, strokeWidth: real, fmt: Format): string {
    "  <g class=\"code block\" " + Attribute("stroke-linecap", lineCap) + " "
      + Attribute("stroke-width", fmt(strokeWidth)) + ">\n"
  }

  /** The code-block group; it ends without a newline. */
  function CodeBlockText(b: CodeBlockGroup, fmt: Format): string {
    CodeBlockOpen(b.lineCap, b.strokeWidth, fmt) + CodeLinesText(b.lines, fmt) + "  </g>"
  }

  function LineNumbersOpen(color: Option<string>, lineCap: string, strokeWidth: real, fmt: Format): string {
    "  <g class=\"line numbers\" " + Attribute("stroke", Interpolate(color)) + " "
      + Attribute("stroke-linecap", lineCap) + " " + Attribute("stroke-width", fmt(strokeWidth)) + ">\n"
  }

  function LineNumbersText(n: LineNumberGroup, fmt: Format): string {
    LineNumbersOpen(n.color, n.lineCap, n.strokeWidth, fmt) + StrokeLines(n.ticks, fmt) + "  </g>\n"
  }

  function RectText(r: Rect, fmt: Format): string {
    "<rect "
      + Attributes([("x", fmt(r.x)), ("y", fmt(r.y)), ("width", fmt(r.width)), ("height", fmt(r.height)),
                    ("fill", Interpolate(r.fill))])
      + "/>"
  }

  /** What `createBackground` returns. */
  function BackgroundText(r: Rect, fmt: Format): string {
    "  " + RectText(r, fmt) + "\n"
  }

  function SvgOpen(width: real, height: real, fmt: Format): string {
    "<svg " + Attribute("class", "faux code") + " " + Attribute("xmlns", SVG_NAMESPACE) + " "
      + Attribute("xmlns:xlink", XLINK_NAMESPACE) + " "
      + Attribute("width", fmt(width)) + " " + Attribute("height", fmt(height)) + " "
      + Attribute("viewBox", "0 0 " + fmt(width) + " " + fmt(height)) + ">\n"
  }

  const SVG_CLOSE := "</svg>"
  const SVG_NAMESPACE := "http://www.w3.org/2000/svg"
  const XLINK_NAMESPACE := "http://www.w3.org/1999/xlink"

  /** Everything between the root element's tags. */
  function DocumentBody(d: SvgDocument, fmt: Format): string {
    BackgroundText(d.background, fmt)
      + CodeBlockText(d.codeBlock, fmt)
      + (match d.lineNumbers case None => "" case Some(n) => LineNumbersText(n, fmt))
  }

  /**
   * The whole document: the root element's size and view box come from the
   * computed width and height, and the line-number group is present only
   * when the document has one.
   */
  function DocumentText(d: SvgDocument, fmt: Format): string {
    SvgOpen(d.width, d.height, fmt) + DocumentBody(d, fmt) + SVG_CLOSE
  }

  /** The document opens the root element, closes it, and holds exactly its body in between. */
  lemma DocumentFrame(d: SvgDocument, fmt: Format)
    ensures var t, head := DocumentText(d, fmt), SvgOpen(d.width, d.height, fmt);
      && |head| + |SVG_CLOSE| <= |t|
      && t[..|head|] == head
      && t[|head|..|t| - |SVG_CLOSE|] == DocumentBody(d, fmt)
      && t[|t| - |SVG_CLOSE|..] == SVG_CLOSE
  {
    Framed(SvgOpen(d.width, d.height, fmt), DocumentBody(d, fmt), SVG_CLOSE);
  }

  lemma Framed(head: string, body: string, tail: string)
    ensures var t := head + body + tail;
      && |head| + |tail| <= |t|
      && t[..|head|] == head
      && t[|head|..|t| - |tail|] == body
      && t[|t| - |tail|..] == tail
  {
  }
}
