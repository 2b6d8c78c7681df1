/**
 * The `FauxCode` class: configuration fixed at construction, the canvas size,
 * and the methods that emit the background, the code block, the line-number
 * ticks and the whole document.
 */
module FauxCodeRenderer {
  import opened Wrappers
  import opened Content
  import opened Tokenizer
  import opened Theme
  import opened Layout
  import opened Svg

  /** The options record passed to the constructor. */
  datatype Options = Options(
    theme: string,
    fontSize: real,
    leading: real,
    lineCap: string,
    margin: real,
    lineNumbers: bool,
    lineNumberOffset: real)

  function Pow10(k: nat): nat {
    if k == 0 then 1 else 10 * Pow10(k - 1)
  }

  /** `n.toString().length` for a positive integer: its number of decimal digits. */
  function DigitCount(n: nat): (d: nat)
    requires n >= 1
    ensures d >= 1
  {
    if n < 10 then 1 else 1 + DigitCount(n / 10)
  }

  /** `DigitCount(n)` is the `d` with `10^(d-1) <= n < 10^d`. */
  lemma {:induction false} DigitCountBounds(n: nat)
    requires n >= 1
    ensures Pow10(DigitCount(n) - 1) <= n < Pow10(DigitCount(n))
  {
    if n >= 10 {
      DigitCountBounds(n / 10);
    }
  }

  /** The length of the longest line's text, 0 when there are no lines: the value `getWidth`'s loop ends with. */
  function LongestLine(lines: seq<Line>): nat {
    if lines == [] then 0
    else
      var longest := LongestLine(lines[..|lines| - 1]);
      var length := |LineText(lines[|lines| - 1])|;
      if length > longest then length else longest
  }

  /** `LongestLine` is the maximum of the line lengths: no line is longer, and some line is that long. */
  lemma {:induction false} LongestLineIsMax(lines: seq<Line>)
    ensures forall i :: 0 <= i < |lines| ==> |LineText(lines[i])| <= LongestLine(lines)
    ensures lines == [] ==> LongestLine(lines) == 0
    ensures lines != [] ==> exists i :: 0 <= i < |lines| && LongestLine(lines) == |LineText(lines[i])|
  {
    if lines != [] {
      var init := lines[..|lines| - 1];
      LongestLineIsMax(init);
      forall i | 0 <= i < |lines|
        ensures |LineText(lines[i])| <= LongestLine(lines)
      {
        if i < |init| {
          assert lines[i] == init[i];
        }
      }
      if |LineText(lines[|lines| - 1])| <= LongestLine(init) && init != [] {
        var k :| 0 <= k < |init| && LongestLine(init) == |LineText(init[k])|;
        assert lines[k] == init[k];
      }
    }
  }

  /** `n.toString().length` for a positive integer `n`: the `d` with `10^(d-1) <= n < 10^d`. */
  method DecimalLength(n: nat) returns (d: nat)
    requires n >= 1
    ensures d == DigitCount(n)
    ensures d >= 1 && Pow10(d - 1) <= n < Pow10(d)
  {
    d := DigitCount(n);
    DigitCountBounds(n);
  }

  lemma AppendAssoc<T>(a: seq<T>, b: seq<T>, c: seq<T>)
    ensures a + (b + c) == (a + b) + c
  {
  }

  lemma Assembled<T>(head: seq<T>, a: seq<T>, b: seq<T>, c: seq<T>, tail: seq<T>)
    ensures head + a + b + c + tail == head + (a + b + c) + tail
  {
  }

  lemma AppendAssoc4<T>(p: seq<T>, a: seq<T>, b: seq<T>, c: seq<T>, d: seq<T>)
    ensures p + (a + b + c + d) == p + a + b + c + d
  {
  }

  class FauxCode {
    const lines: seq<Line>
    const lineCount: nat
    const fontSize: real
    const leading: real
    const lineCap: string
    const margin: real
    const lineNumbers: bool
    const lineNumberOffset: real
    const theme: Theme
    const bindings: Bindings
    var width: real
    var height: real

    /** The fields are set once; `width` and `height` come from the two sizing members. */
    ghost predicate Valid()
      reads this
    {
      lineCount == |lines| && width == Width() && height == GetHeight()
    }

    constructor (lines: seq<Line>, options: Options, themes: map<string, Theme>, bindings: Bindings)
      requires options.theme in themes
      ensures this.lines == lines && fontSize == options.fontSize && leading == options.leading
      ensures lineCap == options.lineCap && margin == options.margin
      ensures lineNumbers == options.lineNumbers && lineNumberOffset == options.lineNumberOffset
      ensures theme == themes[options.theme] && this.bindings == bindings
      ensures Valid()
    {
      this.lines := lines;
      this.lineCount := |lines|;
      this.fontSize := options.fontSize;
      this.leading := options.leading;
      this.lineCap := options.lineCap;
      this.margin := options.margin;
      this.lineNumbers := options.lineNumbers;
      this.lineNumberOffset := options.lineNumberOffset;
      this.theme := themes[options.theme];
      this.bindings := bindings;
      new;
      width := GetWidth();
      height := GetHeight();
    }

    /** The canvas width: the longest line in font-size columns plus a margin each side. */
    function Width(): real {
      LongestLine(lines) as real * fontSize + margin * 2.0
    }

    /** `getWidth`: one pass keeping the longest line length seen so far. */
    method GetWidth() returns (width: real)
      ensures width == Width()
    {
      var longestLine := 0;
      for i := 0 to |lines|
        invariant longestLine == LongestLine(lines[..i])
      {
        assert lines[..i + 1][..i] == lines[..i];
        var length := |LineText(lines[i])|;
        if length > longestLine {
          longestLine := length;
        }
      }
      assert lines[..|lines|] == lines;
      width := longestLine as real * fontSize;
      width := width + margin * 2.0;
    }

    /** The baseline of row `y`: where `drawLine` puts every stroke of that row. */
    function RowY(y: int): real {
      y as real * leading + margin
    }

    /**
     * `getHeight`: the last row's baseline plus the bottom margin. With no
     * lines there is no guard, and the height is one leading short of two
     * margins.
     */
    function GetHeight(): (h: real)
      requires lineCount == |lines|
      ensures lineCount > 0 ==> h == RowY(lineCount - 1) + margin
      ensures lineCount == 0 ==> h == margin * 2.0 - leading
    {
      var height := lineCount as real * leading - leading;
      height + margin * 2.0
    }

    /** `drawRect`: a falsy fill colour falls back to the theme's background. */
    function DrawRect(x: real, y: real, width: real, height: real, fillColor: Option<string>): (r: Rect)
      ensures r.x == x && r.y == y && r.width == width && r.height == height
      ensures Truthy(fillColor) ==> r.fill == fillColor
      ensures !Truthy(fillColor) ==> r.fill == Lookup(theme, "background")
    {
      Rect(x, y, width, height, if Truthy(fillColor) then fillColor else Lookup(theme, "background"))
    }

    /** `createBackground`: one rectangle over the whole canvas in the theme's background colour. */
    function Background(): (r: Rect)
      reads this
      ensures r.x == 0.0 && r.y == 0.0 && r.width == width && r.height == height
      ensures r.fill == Lookup(theme, "background")
    {
      DrawRect(0.0, 0.0, width, height, None)
    }

    /**
     * `drawLine`: no stroke when `dx == 0`. Otherwise a horizontal stroke on
     * row `y`'s baseline, centred on the `dx` columns from `x`. Its signed
     * length `x2 - x1` is `dx` font sizes minus one font size when `x > 0`
     * and plus one otherwise: a code stroke at column 0 is one font size
     * longer than its columns, and a line-number tick (`x <= 0`, `dx < 0`)
     * one font size shorter, so a one-digit tick is a dot. It carries
     * `color` exactly when that is truthy.
     */
    function DrawLine(x: real, y: nat, dx: int, color: Option<string>): (r: Option<Stroke>)
      ensures r.None? <==> dx == 0
      ensures r.Some? ==> (r.value.color.Some? <==> Truthy(color))
      ensures r.Some? && Truthy(color) ==> r.value.color == color
    {
      if dx != 0 then Some(LineStroke(x, y, dx, color)) else None
    }

    /**
     * A drawn line sits on row `y` and is centred on the middle of the `dx`
     * columns from column `x`. Its ends move by half a font size each:
     * inwards when `x > 0`, so `x2 - x1` loses one font size; otherwise
     * `x2 - x1` gains one font size, which lengthens a stroke with `dx > 0`
     * and shortens one with `dx < 0`.
     */
    lemma DrawLineGeometry(x: real, y: nat, dx: int, color: Option<string>)
      requires dx != 0
      ensures var r := DrawLine(x, y, dx, color).value;
        && r.y1 == RowY(y) && r.y2 == RowY(y)
        && r.x1 + r.x2 == 2.0 * (x * fontSize + margin) + dx as real * fontSize
        && r.x2 - r.x1 == dx as real * fontSize - (if x > 0.0 then fontSize else -fontSize)
    {
      StrokeGeometry(x, y, dx, color);
    }

    /** The stroke `drawLine` builds once `dx` is known to be non-zero. */
    function LineStroke(x: real, y: nat, dx: int, color: Option<string>): Stroke {
      var x1 := x * fontSize + margin;
      var x2 := x1 + dx as real * fontSize;
      var y1 := y as real * leading + margin;
      var offset := if x > 0.0 then fontSize / 2.0 else (fontSize / 2.0) * -1.0;
      Stroke(x1 + offset, y1, x2 - offset, y1, if Truthy(color) then color else None)
    }

    /** The strokes `drawLine` makes for the given calls on row `y`, in call order. */
    function Strokes(ticks: seq<Tick>, y: nat): (strokes: seq<Stroke>)
      ensures |strokes| == |ticks|
    {
      if ticks == [] then []
      else
        var t := ticks[|ticks| - 1];
        Strokes(ticks[..|ticks| - 1], y) + [LineStroke(t.x as real, y, t.dx, t.color)]
    }

    lemma {:induction false} StrokeAt(ticks: seq<Tick>, y: nat, i: nat)
      requires i < |ticks|
      ensures Strokes(ticks, y)[i] == LineStroke(ticks[i].x as real, y, ticks[i].dx, ticks[i].color)
    {
      if i < |ticks| - 1 {
        StrokeAt(ticks[..|ticks| - 1], y, i);
      }
    }

    /** The geometry of a stroke `drawLine` builds. */
    lemma StrokeGeometry(x: real, y: nat, dx: int, color: Option<string>)
      ensures var t := LineStroke(x, y, dx, color);
        && t.y1 == RowY(y) && t.y2 == RowY(y)
        && (t.color.Some? <==> Truthy(color)) && (Truthy(color) ==> t.color == color)
        && t.x1 + t.x2 == 2.0 * (x * fontSize + margin) + dx as real * fontSize
        && t.x2 - t.x1 == dx as real * fontSize - (if x > 0.0 then fontSize else -fontSize)
    {
    }

    /** What `createCodeLine` draws for a line: nothing for a line whose text is "\n", else its strokes. */
    function CodeLineGroup(element: Line, y: nat): (g: Option<seq<Stroke>>)
      ensures g.None? <==> LineText(element) == "\n"
    {
      if LineText(element) == "\n" then None
      else Some(Strokes(LineTicks(element, bindings, theme), y))
    }

    /** Emitting one more call appends one indented `<line>` to the text so far. */
    lemma EmitStep(prefix: string, ticks: seq<Tick>, t: Tick, y: nat, fmt: Format)
      requires t.dx > 0
      ensures prefix + StrokeLines(Strokes(ticks, y), fmt) + STROKE_INDENT + DrawLineText(DrawLine(t.x as real, y, t.dx, t.color), fmt) + "\n"
        == prefix + StrokeLines(Strokes(ticks + [t], y), fmt)
    {
      assert (ticks + [t])[..|ticks|] == ticks;
      var strokes := Strokes(ticks + [t], y);
      assert strokes[..|strokes| - 1] == Strokes(ticks, y);
    }

    /** The text of a code line once the ticks `ticks` and a child's first `j` segments are drawn. */
    ghost function Drawn(head: string, ticks: seq<Tick>, segs: seq<Segment>, j: nat, index: int, color: Option<string>, y: nat, fmt: Format): string
      requires j <= |segs|
    {
      head + StrokeLines(Strokes(ticks + RunTicks(segs[..j], index, color), y), fmt)
    }

    /** One more segment appends its `<line>` when it is not empty, and nothing otherwise. */
    lemma SegmentStep(head: string, ticks: seq<Tick>, segs: seq<Segment>, j: nat, index: int, color: Option<string>, y: nat, fmt: Format)
      requires j < |segs|
      ensures segs[j].length != 0 ==>
        Drawn(head, ticks, segs, j + 1, index, color, y, fmt)
          == Drawn(head, ticks, segs, j, index, color, y, fmt) + STROKE_INDENT
             + DrawLineText(DrawLine((segs[j].start + index) as real, y, segs[j].length, color), fmt) + "\n"
      ensures segs[j].length == 0 ==> Drawn(head, ticks, segs, j + 1, index, color, y, fmt) == Drawn(head, ticks, segs, j, index, color, y, fmt)
    {
      RunTicksStep(segs, j, index, color);
      var before := RunTicks(segs[..j], index, color);
      if segs[j].length != 0 {
        var t := Tick(segs[j].start + index, segs[j].length, color);
        assert ticks + RunTicks(segs[..j + 1], index, color) == (ticks + before) + [t] by {
          AppendAssoc(ticks, before, [t]);
        }
        EmitStep(head, ticks + before, t, y, fmt);
      } else {
        assert RunTicks(segs[..j + 1], index, color) == before + [] == before;
      }
    }

    /** The inner loop of `createCodeLine`: one `<line>` per non-empty segment of a child, appended to `prefix`. */
    method DrawSegments(segments: seq<Segment>, index: int, color: Option<string>, y: nat, fmt: Format,
                        ghost head: string, ghost ticks: seq<Tick>, prefix: string) returns (output: string)
      requires prefix == head + StrokeLines(Strokes(ticks, y), fmt)
      ensures output == head + StrokeLines(Strokes(ticks + RunTicks(segments, index, color), y), fmt)
    {
      output := prefix;
      var j := 0;
      assert ticks + RunTicks(segments[..0], index, color) == ticks;
      while j < |segments|
        invariant 0 <= j <= |segments|
        invariant output == Drawn(head, ticks, segments, j, index, color, y, fmt)
      {
        var segment := segments[j];
        SegmentStep(head, ticks, segments, j, index, color, y, fmt);
        if segment.length != 0 {
          var x := segment.start + index;
          var line := DrawLine(x as real, y, segment.length, color);
          output := output + STROKE_INDENT + DrawLineText(line, fmt) + "\n";
        }
        j := j + 1;
      }
      assert segments[..j] == segments;
    }

    /** `createCodeLine`: the loop over children and, inside it, over their segments. */
    method CreateCodeLine(element: Line, y: nat, fmt: Format) returns (output: string)
      ensures output == CodeLineText(CodeLineGroup(element, y), fmt)
    {
      if LineText(element) == "\n" {
        return "";
      }
      output := CODE_LINE_OPEN;
      var index := 0;
      ghost var ticks: seq<Tick> := [];
      var i := 0;
      while i < |element|
        invariant 0 <= i <= |element|
        invariant index == |LineText(element[..i])|
        invariant ticks == LineTicks(element[..i], bindings, theme)
        invariant output == CODE_LINE_OPEN + StrokeLines(Strokes(ticks, y), fmt)
      {
        var child := element[i];
        var color := ElementThemeColor(child, bindings, theme);
        var text := child.text;
        var segments := SplitAndTrim(text);
        output := DrawSegments(segments, index, color, y, fmt, CODE_LINE_OPEN, ticks, output);
        LineTicksStep(element, i, bindings, theme);
        ticks := ticks + RunTicks(segments, index, color);
        index := index + |text|;
        i := i + 1;
      }
      assert element[..i] == element;
      output := output + CODE_LINE_CLOSE;
    }

    /**
     * Stroke `i` of a code line is what `drawLine` returns for the line's
     * tick `i`, on the line's row.
     */
    lemma CodeLineStroke(element: Line, y: nat, i: nat)
      requires LineText(element) != "\n"
      requires i < |LineTicks(element, bindings, theme)|
      ensures CodeLineGroup(element, y).value[i].y1 == RowY(y)
      ensures CodeLineGroup(element, y).value[i].y2 == RowY(y)
      ensures var t := LineTicks(element, bindings, theme)[i];
        Some(CodeLineGroup(element, y).value[i]) == DrawLine(t.x as real, y, t.dx, t.color)
    {
      var ticks := LineTicks(element, bindings, theme);
      StrokeAt(ticks, y, i);
      StrokeGeometry(ticks[i].x as real, y, ticks[i].dx, ticks[i].color);
    }

    /**
     * Every tick of every code line lies within columns `[0, LongestLine(lines)]`,
     * the columns `getWidth` makes room for between the two margins.
     */
    lemma TicksInsideCanvas(y: nat)
      requires y < |lines|
      ensures forall t :: t in LineTicks(lines[y], bindings, theme) ==> 0 <= t.x && t.x + t.dx <= LongestLine(lines)
    {
      var ticks := LineTicks(lines[y], bindings, theme);
      LineTicksFacts(lines[y], bindings, theme);
      LongestLineIsMax(lines);
      assert |LineText(lines[y])| <= LongestLine(lines);
      forall t | t in ticks
        ensures 0 <= t.x && t.x + t.dx <= LongestLine(lines)
      {
        var i :| 0 <= i < |ticks| && ticks[i] == t;
      }
    }

    /** `createCodeBlock`'s content: each line's group, numbered by its position. */
    function CodeBlock(): (b: CodeBlockGroup)
      ensures |b.lines| == |lines|
    {
      CodeBlockGroup(lineCap, fontSize, CodeLineGroups(|lines|))
    }

    /** Entry `y` of the code block is line `y` drawn on row `y`, as `createCodeBlock` numbers them. */
    lemma CodeBlockAt(y: nat)
      requires y < |lines|
      ensures CodeBlock().lines[y] == CodeLineGroup(lines[y], y)
    {
    }

    /** The groups of the first `n` lines. */
    function CodeLineGroups(n: nat): (groups: seq<Option<seq<Stroke>>>)
      requires n <= |lines|
      ensures |groups| == n
      ensures forall y :: 0 <= y < n ==> groups[y] == CodeLineGroup(lines[y], y)
    {
      if n == 0 then [] else CodeLineGroups(n - 1) + [CodeLineGroup(lines[n - 1], n - 1)]
    }

    /** One more line appends that line's group text. */
    lemma BlockStep(prefix: string, y: nat, fmt: Format)
      requires y < |lines|
      ensures prefix + CodeLinesText(CodeLineGroups(y + 1), fmt)
        == prefix + CodeLinesText(CodeLineGroups(y), fmt) + CodeLineText(CodeLineGroup(lines[y], y), fmt)
    {
      var groups := CodeLineGroups(y + 1);
      assert groups[..|groups| - 1] == CodeLineGroups(y);
      AppendAssoc(prefix, CodeLinesText(CodeLineGroups(y), fmt), CodeLineText(CodeLineGroup(lines[y], y), fmt));
    }

    /** `createCodeBlock`: the group's opening tag, then every line in order, then the closing tag. */
    method CreateCodeBlock(fmt: Format) returns (output: string)
      ensures output == CodeBlockText(CodeBlock(), fmt)
    {
      output := CodeBlockOpen(lineCap, fontSize, fmt);
      for y := 0 to |lines|
        invariant output == CodeBlockOpen(lineCap, fontSize, fmt) + CodeLinesText(CodeLineGroups(y), fmt)
      {
        var line := CreateCodeLine(lines[y], y, fmt);
        BlockStep(CodeBlockOpen(lineCap, fontSize, fmt), y, fmt);
        output := output + line;
      }
      output := output + "  </g>";
    }

    /** `createLineNumbers`'s content: one tick per row, as long as the row's number has digits, in the group's colour. */
    function LineNumbers(): (n: LineNumberGroup)
      ensures |n.ticks| == lineCount
    {
      LineNumberGroup(Lookup(theme, "line-number"), lineCap, fontSize, NumberTicks(lineCount))
    }

    /** The ticks of rows `0 .. n - 1`. */
    function NumberTicks(n: nat): (ticks: seq<Stroke>)
      ensures |ticks| == n
    {
      if n == 0 then [] else NumberTicks(n - 1) + [LineStroke(lineNumberOffset, n - 1, -(DigitCount(n) as int), None)]
    }

    lemma {:induction false} NumberTickAt(n: nat, y: nat)
      requires y < n
      ensures NumberTicks(n)[y] == LineStroke(lineNumberOffset, y, -(DigitCount(y + 1) as int), None)
    {
      if y < n - 1 {
        NumberTickAt(n - 1, y);
      }
    }

    /**
     * Row `y`'s line-number tick: on the row's baseline, with no colour of
     * its own, and spanning `-d` columns from `lineNumberOffset`, where `d`
     * is the number of decimal digits of `y + 1` (see `DigitCountBounds`).
     */
    lemma LineNumberTick(y: nat)
      requires y < lineCount
      ensures var t := LineNumbers().ticks[y];
        var dx := -(DigitCount(y + 1) as int);
        && t.y1 == RowY(y) && t.y2 == RowY(y) && t.color.None?
        && t.x1 + t.x2 == 2.0 * (lineNumberOffset * fontSize + margin) + dx as real * fontSize
        && t.x2 - t.x1 == dx as real * fontSize - (if lineNumberOffset > 0.0 then fontSize else -fontSize)
    {
      NumberTickAt(lineCount, y);
      StrokeGeometry(lineNumberOffset, y, -(DigitCount(y + 1) as int), None);
    }

    /** The line-number group's text once rows `0 .. y - 1` are drawn. */
    ghost function NumbersDrawn(y: nat, fmt: Format): string {
      LineNumbersOpen(Lookup(theme, "line-number"), lineCap, fontSize, fmt) + StrokeLines(NumberTicks(y), fmt)
    }

    /** One more row appends that row's tick, as `drawLine` writes it. */
    lemma NumberStep(drawn: string, y: nat, fmt: Format)
      requires drawn == NumbersDrawn(y, fmt)
      ensures drawn + STROKE_INDENT + DrawLineText(DrawLine(lineNumberOffset, y, -(DigitCount(y + 1) as int), None), fmt) + "\n"
        == NumbersDrawn(y + 1, fmt)
    {
      var init := NumberTicks(y);
      var tick := LineStroke(lineNumberOffset, y, -(DigitCount(y + 1) as int), None);
      assert NumberTicks(y + 1) == init + [tick];
      assert (init + [tick])[..|init|] == init;
      assert DrawLine(lineNumberOffset, y, -(DigitCount(y + 1) as int), None) == Some(tick);
      var body := StrokeLines(init, fmt);
      var text := StrokeText(tick, fmt);
      assert StrokeLines(init + [tick], fmt) == body + STROKE_INDENT + text + "\n";
      AppendAssoc4(LineNumbersOpen(Lookup(theme, "line-number"), lineCap, fontSize, fmt), body, STROKE_INDENT, text, "\n");
    }

    /** `createLineNumbers`: a `drawLine` call per row, with the width the row's number takes. */
    method CreateLineNumbers(fmt: Format) returns (output: string)
      ensures output == LineNumbersText(LineNumbers(), fmt)
    {
      var color := Lookup(theme, "line-number");
      output := LineNumbersOpen(color, lineCap, fontSize, fmt);
      assert output + StrokeLines(NumberTicks(0), fmt) == output;
      for y := 0 to lineCount
        invariant output == NumbersDrawn(y, fmt)
      {
        var width := DecimalLength(y + 1);
        var line := DrawLine(lineNumberOffset, y, -(width as int), None);
        NumberStep(output, y, fmt);
        output := output + STROKE_INDENT + DrawLineText(line, fmt) + "\n";
      }
      output := output + "  </g>\n";
    }

    /** What `render` writes: the size, the background, the code block and, when enabled, the line numbers. */
    function Document(): (d: SvgDocument)
      reads this
      ensures d.lineNumbers.Some? <==> lineNumbers
    {
      SvgDocument(width, height, Background(), CodeBlock(), if lineNumbers then Some(LineNumbers()) else None)
    }

    /**
     * The document's numbers: the canvas fits the longest line between two
     * margins and ends one margin below the last row, and the code block and
     * the line numbers each have one entry per line.
     */
    lemma DocumentShape()
      requires Valid()
      ensures var d := Document();
        && d.width == LongestLine(lines) as real * fontSize + margin * 2.0
        && (lineCount > 0 ==> d.height == RowY(lineCount - 1) + margin)
        && |d.codeBlock.lines| == lineCount
        && (d.lineNumbers.Some? ==> |d.lineNumbers.value.ticks| == lineCount)
    {
    }

    /** `render`: the document, piece after piece. */
    method Render(fmt: Format) returns (svg: string)
      ensures svg == DocumentText(Document(), fmt)
    {
      var head := SvgOpen(width, height, fmt);
      var background := BackgroundText(Background(), fmt);
      svg := head + background;
      var block := CreateCodeBlock(fmt);
      svg := svg + block;
      var numbers := "";
      if lineNumbers {
        numbers := CreateLineNumbers(fmt);
        svg := svg + numbers;
      } else {
        assert svg + numbers == svg;
      }
      svg := svg + SVG_CLOSE;
      Assembled(head, background, block, numbers, SVG_CLOSE);
    }
  }
}
