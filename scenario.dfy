/**
 * Worked examples on concrete inputs: the segments `splitAndTrim` returns,
 * the `drawLine` calls of a two-child line, and the digit counts behind the
 * line-number ticks.
 */
module Scenario {
  import opened Wrappers
  import opened Content
  import opened Tokenizer
  import opened Theme
  import opened Layout
  import opened Svg
  import opened FauxCodeRenderer

  /** Two words give two segments; the space between them belongs to neither. */
  lemma SplitTwoWords()
    ensures Split("foo bar") == [Segment(0, 3, "foo", 3), Segment(4, 7, "bar", 3)]
  {
    var t := "foo bar";
    assert t[4..7] == "bar";
    assert ScanFrom(t, 7, Some(4)) == [Close(t, 4, 7)] + ScanFrom(t, 8, None) == [Segment(4, 7, "bar", 3)];
    assert ScanFrom(t, 4, None) == ScanFrom(t, 5, Some(4)) == ScanFrom(t, 6, Some(4)) == ScanFrom(t, 7, Some(4));
    assert ScanFrom(t, 3, Some(0)) == [Close(t, 0, 3)] + ScanFrom(t, 4, None);
    assert t[0..3] == "foo";
    assert Close(t, 0, 3) == Segment(0, 3, "foo", 3);
    assert ScanFrom(t, 0, None) == ScanFrom(t, 1, Some(0)) == ScanFrom(t, 2, Some(0)) == ScanFrom(t, 3, Some(0));
  }

  /** The empty text gives one empty segment, not an empty list. */
  lemma SplitEmptyText()
    ensures Split("") == [Segment(0, 0, "", 0)]
  {
  }

  /** A trailing space leaves an empty segment at the end of the text; a leading one leaves none. */
  lemma SplitTrailingSpace()
    ensures Split(" a ") == [Segment(1, 2, "a", 1), Segment(3, 3, "", 0)]
  {
    var t := " a ";
    assert t[3..3] == "";
    assert ScanFrom(t, 3, None) == [Close(t, 3, 3)] + ScanFrom(t, 4, None) == [Segment(3, 3, "", 0)];
    assert ScanFrom(t, 2, Some(1)) == [Close(t, 1, 2)] + ScanFrom(t, 3, None);
    assert t[1..2] == "a";
    assert Close(t, 1, 2) == Segment(1, 2, "a", 1);
    assert ScanFrom(t, 0, None) == ScanFrom(t, 1, None) == ScanFrom(t, 2, Some(1));
  }

  lemma SplitOneWord()
    ensures Split("foo") == [Segment(0, 3, "foo", 3)]
  {
    var t := "foo";
    assert t[0..3] == t;
    assert ScanFrom(t, 3, Some(0)) == [Close(t, 0, 3)] + ScanFrom(t, 4, None);
    assert ScanFrom(t, 0, None) == ScanFrom(t, 1, Some(0)) == ScanFrom(t, 2, Some(0)) == ScanFrom(t, 3, Some(0));
  }

  /** A leading space shifts the only segment by one. */
  lemma SplitLeadingSpace()
    ensures Split(" bar") == [Segment(1, 4, "bar", 3)]
  {
    var t := " bar";
    assert t[1..4] == "bar";
    assert ScanFrom(t, 4, Some(1)) == [Close(t, 1, 4)] + ScanFrom(t, 5, None);
    assert ScanFrom(t, 0, None) == ScanFrom(t, 1, None) == ScanFrom(t, 2, Some(1)) == ScanFrom(t, 3, Some(1)) == ScanFrom(t, 4, Some(1));
  }

  /**
   * A keyword span followed by a plain text node: the keyword takes its bound
   * colour, the text node the theme's text colour, and the second child's
   * segment is shifted by the first child's length.
   */
  lemma TwoChildLine(theme: Theme, bindings: Bindings)
    requires theme == map["keyword" := "#f00", "text" := "#fff"]
    requires bindings == map["kw" := "keyword"]
    ensures LineTicks([Run(true, "kw", "foo"), Run(false, "", " bar")], bindings, theme)
      == [Tick(0, 3, Some("#f00")), Tick(4, 3, Some("#fff"))]
  {
    var first, second := Run(true, "kw", "foo"), Run(false, "", " bar");
    var runs := [first, second];
    var red := ElementThemeColor(first, bindings, theme);
    var white := ElementThemeColor(second, bindings, theme);
    assert red == Some("#f00") by {
      assert BindingKey(bindings, "kw") == "keyword";
      assert Lookup(theme, "keyword") == Some("#f00");
    }
    assert white == Some("#fff");
    SplitOneWord();
    SplitLeadingSpace();
    assert runs[..1] == [first];
    LineTicksSnoc(runs, bindings, theme);
    LineTicksSnoc([first], bindings, theme);
    assert [first][..0] == [];
    assert LineText([first]) == "foo";
    assert LineTicks([first], bindings, theme) == RunTicks([Segment(0, 3, "foo", 3)], 0, red);
    assert RunTicks([Segment(0, 3, "foo", 3)], 0, red) == [Tick(0, 3, red)];
    assert RunTicks([Segment(1, 4, "bar", 3)], 3, white) == [Tick(4, 3, white)];
  }

  /** Rows 1..9 take one column, rows 10..99 two, row 100 three. */
  lemma DigitCounts()
    ensures DigitCount(1) == 1 && DigitCount(9) == 1
    ensures DigitCount(10) == 2 && DigitCount(99) == 2
    ensures DigitCount(100) == 3
  {
  }

  lemma SplitThreeLetters()
    ensures Split("baz") == [Segment(0, 3, "baz", 3)]
  {
    var t := "baz";
    assert t[0..3] == t;
    assert ScanFrom(t, 3, Some(0)) == [Close(t, 0, 3)] + ScanFrom(t, 4, None);
    assert ScanFrom(t, 0, None) == ScanFrom(t, 1, Some(0)) == ScanFrom(t, 2, Some(0)) == ScanFrom(t, 3, Some(0));
  }

  /** The two lines of the sample snippet, each a single text node. */
  const SAMPLE_LINES: seq<Line> := [[Run(false, "", "foo bar")], [Run(false, "", "baz")]]

  const INK := "#24292e"

  /** A renderer of the sample snippet with font size 5, leading 10, margin 50 and line numbers at column -3. */
  ghost predicate IsSample(f: FauxCode)
    reads f
  {
    && f.Valid()
    && f.lines == SAMPLE_LINES
    && f.fontSize == 5.0 && f.leading == 10.0 && f.margin == 50.0 && f.lineNumberOffset == -3.0
    && f.theme == map["text" := INK]
  }

  /** The canvas fits the 7-column first line between two 50-unit margins, and ends 50 below the second row. */
  lemma SampleSize(f: FauxCode)
    requires IsSample(f)
    ensures f.width == 135.0 && f.height == 110.0
  {
    var first, second := SAMPLE_LINES[0], SAMPLE_LINES[1];
    assert first[..0] == [] && second[..0] == [];
    assert LineText(first) == "foo bar";
    assert LineText(second) == "baz";
    var none: seq<Line> := [];
    assert SAMPLE_LINES[..1] == [first] && [first][..0] == none;
    assert LongestLine([first]) == 7;
    assert LongestLine(SAMPLE_LINES) == 7;
  }

  /** The code lines of the sample snippet as `drawLine` calls. */
  lemma SampleTicks(f: FauxCode)
    requires IsSample(f)
    ensures LineTicks(SAMPLE_LINES[0], f.bindings, f.theme) == [Tick(0, 3, Some(INK)), Tick(4, 3, Some(INK))]
    ensures LineTicks(SAMPLE_LINES[1], f.bindings, f.theme) == [Tick(0, 3, Some(INK))]
  {
    var first, second := SAMPLE_LINES[0], SAMPLE_LINES[1];
    assert ElementThemeColor(first[0], f.bindings, f.theme) == Some(INK);
    assert ElementThemeColor(second[0], f.bindings, f.theme) == Some(INK);
    assert first[..0] == [] && second[..0] == [];
    SplitTwoWords();
    SplitThreeLetters();
    assert RunTicks([Segment(0, 3, "foo", 3)], 0, Some(INK)) == [Tick(0, 3, Some(INK))];
    assert RunTicks([Segment(0, 3, "foo", 3), Segment(4, 7, "bar", 3)], 0, Some(INK))
      == [Tick(0, 3, Some(INK)), Tick(4, 3, Some(INK))];
  }

  /** The three strokes of the sample, as `drawLine` computes them. */
  lemma SampleStrokes(f: FauxCode)
    requires IsSample(f)
    ensures f.LineStroke(0.0, 0, 3, Some(INK)) == Stroke(47.5, 50.0, 67.5, 50.0, Some(INK))
    ensures f.LineStroke(4.0, 0, 3, Some(INK)) == Stroke(72.5, 50.0, 82.5, 50.0, Some(INK))
    ensures f.LineStroke(0.0, 1, 3, Some(INK)) == Stroke(47.5, 60.0, 67.5, 60.0, Some(INK))
  {
  }

  /** Each code row of the sample, as strokes. */
  lemma SampleRows(f: FauxCode)
    requires IsSample(f)
    ensures f.Strokes([Tick(0, 3, Some(INK)), Tick(4, 3, Some(INK))], 0)
      == [Stroke(47.5, 50.0, 67.5, 50.0, Some(INK)), Stroke(72.5, 50.0, 82.5, 50.0, Some(INK))]
    ensures f.Strokes([Tick(0, 3, Some(INK))], 1) == [Stroke(47.5, 60.0, 67.5, 60.0, Some(INK))]
  {
    SampleStrokes(f);
    var row0 := [Tick(0, 3, Some(INK)), Tick(4, 3, Some(INK))];
    assert row0[..1] == [Tick(0, 3, Some(INK))];
    var row1 := [Tick(0, 3, Some(INK))];
    assert row1[..0] == [];
    assert f.Strokes(row1, 0) == [Stroke(47.5, 50.0, 67.5, 50.0, Some(INK))];
  }

  /**
   * The code block of the sample: "foo" and "bar" on row 0 and "baz" on
   * row 1. A stroke at column 0 is pushed out by 2.5 at each end, the one
   * at column 4 pulled in by 2.5.
   */
  lemma SampleCodeBlock(f: FauxCode)
    requires IsSample(f)
    ensures f.CodeBlock().lines == [
      Some([Stroke(47.5, 50.0, 67.5, 50.0, Some(INK)), Stroke(72.5, 50.0, 82.5, 50.0, Some(INK))]),
      Some([Stroke(47.5, 60.0, 67.5, 60.0, Some(INK))])]
  {
    SampleTicks(f);
    SampleRows(f);
    var first, second := SAMPLE_LINES[0], SAMPLE_LINES[1];
    assert first[..0] == [] && second[..0] == [];
    assert LineText(first) == "foo bar" && LineText(second) == "baz";
    f.CodeBlockAt(0);
    f.CodeBlockAt(1);
  }

  /** Both rows have one-digit numbers, so both line-number ticks are dots at 32.5. */
  lemma SampleLineNumbers(f: FauxCode)
    requires IsSample(f)
    ensures f.LineNumbers().ticks == [Stroke(32.5, 50.0, 32.5, 50.0, None), Stroke(32.5, 60.0, 32.5, 60.0, None)]
  {
    assert DigitCount(1) == 1 && DigitCount(2) == 1;
    assert f.NumberTicks(1) == [Stroke(32.5, 50.0, 32.5, 50.0, None)];
  }

  /** The sample end to end: its size, its code strokes and its line-number ticks. */
  lemma SampleSnippet(f: FauxCode)
    requires IsSample(f)
    ensures f.width == 135.0 && f.height == 110.0
    ensures f.CodeBlock().lines == [
      Some([Stroke(47.5, 50.0, 67.5, 50.0, Some(INK)), Stroke(72.5, 50.0, 82.5, 50.0, Some(INK))]),
      Some([Stroke(47.5, 60.0, 67.5, 60.0, Some(INK))])]
    ensures f.LineNumbers().ticks == [Stroke(32.5, 50.0, 32.5, 50.0, None), Stroke(32.5, 60.0, 32.5, 60.0, None)]
  {
    SampleSize(f);
    SampleCodeBlock(f);
    SampleLineNumbers(f);
  }
}
