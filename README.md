# Faux code renderer

A model of the renderer at the heart of the faux-code generator. It turns a code snippet's lines into an SVG "minimap". Each run of non-space characters becomes a thick stroke, with the configured line cap, in the syntax colour of its span. Optional line-number ticks sit in the left margin. The modelled file is `src/scripts/FauxCode.js`.

The modules follow the parts of that file:

- `Wrappers`: `Option`, standing in for JavaScript's `undefined`.
- `Content`: a line as its list of child nodes (`Run`: span or text node, class name, text), and the line's `textContent`.
- `Theme`: theme and class-binding lookups, JavaScript truthiness, and `getElementThemeColor`.
- `Tokenizer`: `splitAndTrim`. The method `SplitAndTrim` is the source's loop. `ScanFrom` is the same scan written as a recursive state machine, and every property is proved about it.
- `Layout`: the arguments of every `drawLine` call `createCodeLine` makes, as `Tick(x, dx, color)`. It proves what those calls cover.
- `Svg`: the records for the SVG elements, and the text the source's template strings make of them.
- `FauxCodeRenderer`: the class `FauxCode`. The configuration is `const` fields. `width` and `height` are set in the constructor by `GetWidth` and `GetHeight`. The methods build the background, the code block, the line numbers and the document. Each method is proved equal to a function that describes its output.
- `Scenario`: worked examples on concrete inputs.

Three behaviours of the code are easy to miss:

- `splitAndTrim` of an empty text returns one empty segment at `[0, 0)`, not an empty list. The scan runs one position past the end, and the character there (`undefined`) is not a space. For the same reason, a text that ends in a space also ends with an empty segment at `[|text|, |text|)`. `ScanEmpty` proves exactly when this happens.
- `drawLine` chooses the direction of its half-stroke offset by `x > 0`, not by the sign of `dx`. The signed length `x2 - x1` is `dx` font sizes, minus one font size when `x > 0` and plus one otherwise. A code stroke that starts at column 0 is therefore one font size longer than its columns, where one at a later column is one font size shorter. A line-number tick (`x <= 0`, `dx < 0`) is one font size shorter than its columns, so a one-digit tick is a dot. `DrawLineGeometry` states the rule.
- `getHeight` has no guard for zero lines: the height is then `2 * margin - leading`.

Numbers are `real`, and character positions are `int`. Writing a number into the markup is done by an injected formatter `fmt: real -> string`, standing in for JavaScript's number-to-string conversion.

## Model

| member | source | states |
|---|---|---|
| Content.RunTextInLine | src/scripts/FauxCode.js:112-132 | the running `index` of `createCodeLine` is where each child's text sits inside the line's `textContent` |
| Theme.ElementThemeColor | src/scripts/FauxCode.js:12-23 | a SPAN whose class is bound to a key with a truthy theme colour gets that colour; every other child gets `theme.text` |
| Theme.BindingKey | src/scripts/FauxCode.js:16-17 | `bindings[className]` as a theme key; a class with no binding gives `undefined`, which JavaScript uses as the key "undefined" |
| Theme.ThemeColorTotal | src/scripts/FauxCode.js:12-23 | with a truthy `text` colour, every child resolves to a truthy colour, either the bound one or `text` |
| Tokenizer.SplitAndTrim | src/scripts/FauxCode.js:25-44 | the source's loop over positions `0..length` returns exactly the segments of the scan `Split` |
| Tokenizer.ScanFrom | src/scripts/FauxCode.js:29-41 | the scan from position `pos` with the open segment's start, if any: a segment opens at a non-space or at the end, and closes at a space or at the end |
| Tokenizer.Split | src/scripts/FauxCode.js:25-44 | what `splitAndTrim` returns: the scan from position 0 with no segment open |
| Tokenizer.ScanTokens | src/scripts/FauxCode.js:29-41 | every segment is a maximal space-free stretch of the text, with `text == whole[start..end]` and `length == end - start` |
| Tokenizer.ScanOrdered | src/scripts/FauxCode.js:29-41 | segments come out in order, each ending before the next one starts |
| Tokenizer.OrderedCons | src/scripts/FauxCode.js:34-39 | a segment pushed before an ordered list that starts after it keeps the list ordered |
| Tokenizer.ScanCovers | src/scripts/FauxCode.js:29-41 | every non-space character lies inside some segment |
| Tokenizer.ScanEmpty | src/scripts/FauxCode.js:29-41 | the output is never empty; the only empty segment is the last one, at the end of the text, and it is present exactly when the text is empty or ends in a space |
| Tokenizer.SplitFacts | src/scripts/FauxCode.js:25-44 | `splitAndTrim` as a whole: tokens, order, coverage, each character in at most one segment, the output never empty, and the trailing empty segment |
| Layout.RunTicks | src/scripts/FauxCode.js:119-128 | one call per non-empty segment of a child, each with a positive length and the child's colour |
| Layout.LineTicks | src/scripts/FauxCode.js:112-132 | every call made for a line has a positive length |
| Layout.RunTicksFromSegments | src/scripts/FauxCode.js:121-127 | every call is made for a non-empty segment, at `start + index` with the segment's length |
| Layout.RunTicksDrawAll | src/scripts/FauxCode.js:121-127 | every non-empty segment gets its call: the `if (length)` guard skips only empty segments |
| Layout.RunTicksBefore | src/scripts/FauxCode.js:123-125 | segments that end before a column give calls that end before that column shifted by `index` |
| Layout.RunTicksSeparated | src/scripts/FauxCode.js:121-127 | ordered segments give calls left to right with at least one column between neighbours |
| Layout.SeparatedAppend | src/scripts/FauxCode.js:121-127 | two separated runs of calls, the first ending before the second starts, are separated together |
| Layout.TicksOfTokens | src/scripts/FauxCode.js:121-127 | calls made from token segments span maximal space-free stretches of the child's text, shifted by `index` |
| Layout.RunTicksAreTokens | src/scripts/FauxCode.js:116-127 | each call for a child spans a maximal space-free stretch of its text, shifted by `index` |
| Layout.RunTicksApart | src/scripts/FauxCode.js:116-127 | a child's calls are separated by at least one column |
| Layout.RunTicksCover | src/scripts/FauxCode.js:116-127 | every non-space character of a child's text lies under one of its calls |
| Layout.RunTicksStep | src/scripts/FauxCode.js:121-127 | one more segment appends its call when it is non-empty and nothing otherwise |
| Layout.LineTicksStep | src/scripts/FauxCode.js:114-132 | one more child appends its calls at the length of the text before it, and `index` grows by the child's text |
| Layout.LineTicksOwned | src/scripts/FauxCode.js:112-132 | every call for a line belongs to one child: it spans a maximal space-free stretch of that child's text at the child's offset, in that child's colour |
| Layout.OwnedByExtend | src/scripts/FauxCode.js:112-132 | a call owned by an earlier child stays owned when another child follows |
| Layout.LineTicksWithinText | src/scripts/FauxCode.js:112-132 | every call lies inside the line's text, over non-space characters only |
| Layout.LineTicksSorted | src/scripts/FauxCode.js:112-132 | a line's calls run left to right without overlapping, across child boundaries too |
| Layout.LineTicksCover | src/scripts/FauxCode.js:112-132 | every non-space character of the line lies under one of its calls |
| Layout.CoverConcat | src/scripts/FauxCode.js:112-132 | calls covering two texts, the second shifted by the first's length, cover the texts joined |
| Layout.LineTicksFacts | src/scripts/FauxCode.js:108-135 | what `createCodeLine` draws: calls owned by children, inside the text, sorted, covering every non-space character, and no column under two calls |
| Svg.CodeLineText | src/scripts/FauxCode.js:108-135 | the code-line text is empty exactly for a skipped line; a drawn line is a group even with no strokes |
| Svg.StrokeText | src/scripts/FauxCode.js:100-103 | the `<line>` template: `x1`, `y1`, `x2`, `y2`, then `stroke` only for a stroke with a colour, then `/>` |
| Svg.RectText | src/scripts/FauxCode.js:82 | the `<rect>` template with `x`, `y`, `width`, `height` and `fill` |
| Svg.BackgroundText | src/scripts/FauxCode.js:88 | the background rectangle indented by two spaces and ended by a newline |
| Svg.CodeBlockOpen | src/scripts/FauxCode.js:138 | the code-block group's opening tag with the line cap and the font size as stroke width |
| Svg.LineNumbersOpen | src/scripts/FauxCode.js:149 | the line-number group's opening tag with the `line-number` colour, the line cap and the font size as stroke width |
| Svg.SvgOpen | src/scripts/FauxCode.js:161 | the root element's opening tag with its class, namespaces, width, height and view box |
| Svg.DocumentFrame | src/scripts/FauxCode.js:160-168 | the document opens the root `svg` element, holds exactly the background, code block and optional line numbers, and ends with `</svg>` |
| FauxCodeRenderer.DigitCountBounds | src/scripts/FauxCode.js:151 | `(y + 1).toString().length` is the `d` with `10^(d-1) <= y + 1 < 10^d` |
| FauxCodeRenderer.DecimalLength | src/scripts/FauxCode.js:151 | the width of a row's number is its count of decimal digits, at least 1 |
| FauxCodeRenderer.DigitCount | src/scripts/FauxCode.js:151 | `n.toString().length` for a positive integer, at least 1 |
| FauxCodeRenderer.LongestLine | src/scripts/FauxCode.js:63-67 | the value `getWidth`'s loop keeps: the greatest `textContent` length so far, starting from 0 |
| FauxCodeRenderer.LongestLineIsMax | src/scripts/FauxCode.js:63-67 | the longest-line value is at least every line's length, is attained by some line, and is 0 for no lines |
| FauxCodeRenderer.FauxCode.constructor | src/scripts/FauxCode.js:47-60 | fields copied from the options, the theme looked up by name, and `width` and `height` set by the two sizing members |
| FauxCodeRenderer.FauxCode.Width | src/scripts/FauxCode.js:69-70 | the longest line in font-size columns plus a margin on each side |
| FauxCodeRenderer.FauxCode.GetWidth | src/scripts/FauxCode.js:62-72 | the loop's width is the longest line in font-size columns plus two margins |
| FauxCodeRenderer.FauxCode.GetHeight | src/scripts/FauxCode.js:74-78 | the height is the last row's baseline plus one margin, and `2 * margin - leading` with no lines |
| FauxCodeRenderer.FauxCode.DrawRect | src/scripts/FauxCode.js:80-84 | the rectangle keeps its position and size; a falsy fill falls back to the theme's background |
| FauxCodeRenderer.FauxCode.Background | src/scripts/FauxCode.js:86-90 | one rectangle at the origin, the size of the canvas, in the theme's background colour |
| FauxCodeRenderer.FauxCode.DrawLine | src/scripts/FauxCode.js:92-106 | no stroke exactly when `dx == 0`; a stroke carries a colour exactly when `color` is truthy, and then that colour |
| FauxCodeRenderer.FauxCode.LineStroke | src/scripts/FauxCode.js:95-103 | the stroke `drawLine` builds for a non-zero `dx`: `x1`, `x2` and `y1` from the font size, leading and margin, the half-font-size offset chosen by `x > 0`, and the colour kept only when truthy |
| FauxCodeRenderer.FauxCode.DrawLineGeometry | src/scripts/FauxCode.js:94-103 | a stroke lies on row `y`'s baseline and is centred on columns `x .. x + dx`; its signed length `x2 - x1` is `dx` font sizes minus one font size when `x > 0` and plus one otherwise, which lengthens a column-0 code stroke and shortens a line-number tick |
| FauxCodeRenderer.FauxCode.StrokeGeometry | src/scripts/FauxCode.js:95-103 | the same geometry and colour rule for the stroke built once `dx` is non-zero |
| FauxCodeRenderer.FauxCode.Strokes | src/scripts/FauxCode.js:121-127 | one stroke per call, in call order |
| FauxCodeRenderer.FauxCode.StrokeAt | src/scripts/FauxCode.js:121-127 | stroke `i` is the stroke of call `i` |
| FauxCodeRenderer.FauxCode.CodeLineGroup | src/scripts/FauxCode.js:108-135 | a line whose text is exactly "\n" is skipped; any other line is drawn |
| FauxCodeRenderer.FauxCode.CodeLineStroke | src/scripts/FauxCode.js:121-127 | stroke `i` of a drawn line is what `drawLine` returns for call `i`, on the line's row |
| FauxCodeRenderer.FauxCode.TicksInsideCanvas | src/scripts/FauxCode.js:62-72 | every call of every line lies within the columns `getWidth` makes room for between the margins |
| FauxCodeRenderer.FauxCode.EmitStep | src/scripts/FauxCode.js:124-126 | one more non-empty call appends one indented `<line>` to the text so far |
| FauxCodeRenderer.FauxCode.SegmentStep | src/scripts/FauxCode.js:121-127 | one more segment appends its `<line>` when non-empty and nothing otherwise |
| FauxCodeRenderer.FauxCode.DrawSegments | src/scripts/FauxCode.js:121-128 | the inner loop appends the strokes of exactly the child's non-empty segments, in order |
| FauxCodeRenderer.FauxCode.CreateCodeLine | src/scripts/FauxCode.js:108-135 | the method's text is that of the line's group: nothing for "\n", else every child's strokes in order inside one group |
| FauxCodeRenderer.FauxCode.CodeBlock | src/scripts/FauxCode.js:137-144 | the code block has one entry per line |
| FauxCodeRenderer.FauxCode.CodeBlockAt | src/scripts/FauxCode.js:139-141 | entry `y` of the code block is line `y`'s group, drawn on row `y` |
| FauxCodeRenderer.FauxCode.CodeLineGroups | src/scripts/FauxCode.js:139-141 | the first `n` lines give `n` entries, entry `y` being line `y`'s group drawn on row `y` |
| FauxCodeRenderer.FauxCode.BlockStep | src/scripts/FauxCode.js:139-141 | one more line appends that line's group text |
| FauxCodeRenderer.FauxCode.CreateCodeBlock | src/scripts/FauxCode.js:137-144 | the method's text is the code block's: the opening tag, every line's group in order, the closing tag |
| FauxCodeRenderer.FauxCode.LineNumbers | src/scripts/FauxCode.js:146-158 | one line-number tick per line |
| FauxCodeRenderer.FauxCode.NumberTicks | src/scripts/FauxCode.js:150-154 | the ticks of rows `0 .. n - 1` are `n` strokes |
| FauxCodeRenderer.FauxCode.NumberTickAt | src/scripts/FauxCode.js:150-154 | row `y`'s tick is drawn with `dx` equal to minus the digit count of `y + 1` |
| FauxCodeRenderer.FauxCode.LineNumberTick | src/scripts/FauxCode.js:150-154 | row `y`'s tick lies on the row's baseline with no colour of its own, and spans minus the digit count of `y + 1` columns from the offset |
| FauxCodeRenderer.FauxCode.NumberStep | src/scripts/FauxCode.js:150-154 | one more row appends that row's tick as `drawLine` writes it |
| FauxCodeRenderer.FauxCode.CreateLineNumbers | src/scripts/FauxCode.js:146-158 | the method's text is the line-number group's: the opening tag in the theme's `line-number` colour, one tick per row, the closing tag |
| FauxCodeRenderer.FauxCode.Document | src/scripts/FauxCode.js:160-168 | the document has a line-number group exactly when `lineNumbers` is set |
| FauxCodeRenderer.FauxCode.DocumentShape | src/scripts/FauxCode.js:160-168 | the canvas fits the longest line between two margins and ends a margin below the last row; code block and line numbers have one entry per line |
| FauxCodeRenderer.FauxCode.Render | src/scripts/FauxCode.js:160-168 | the method's text is the document's: root element, background, code block, line numbers only when enabled, closing tag |
| Scenario.SplitTwoWords | src/scripts/FauxCode.js:25-44 | "foo bar" splits into "foo" at 0..3 and "bar" at 4..7 |
| Scenario.SplitEmptyText | src/scripts/FauxCode.js:25-44 | the empty text splits into one empty segment |
| Scenario.SplitTrailingSpace | src/scripts/FauxCode.js:25-44 | " a " gives "a" at 1..2 and a final empty segment at 3..3 |
| Scenario.SplitOneWord | src/scripts/FauxCode.js:25-44 | "foo" is one segment at 0..3 |
| Scenario.SplitLeadingSpace | src/scripts/FauxCode.js:25-44 | " bar" is one segment at 1..4 |
| Scenario.TwoChildLine | src/scripts/FauxCode.js:108-135 | a keyword span "foo" and a text node " bar" give calls at columns 0 and 4, length 3, in the keyword colour and the text colour |
| Scenario.DigitCounts | src/scripts/FauxCode.js:151 | rows 1 to 9 take one column, rows 10 to 99 two, row 100 three |
| Scenario.SplitThreeLetters | src/scripts/FauxCode.js:25-44 | "baz" is one segment at 0..3 |
| Scenario.SampleSize | src/scripts/FauxCode.js:62-78 | the sample snippet ("foo bar", "baz"; font size 5, leading 10, margin 50) is 135 wide and 110 high |
| Scenario.SampleTicks | src/scripts/FauxCode.js:108-135 | the sample's `drawLine` calls: columns 0 and 4 on the first line, column 0 on the second, length 3, in the text colour |
| Scenario.SampleStrokes | src/scripts/FauxCode.js:92-106 | the sample's strokes: the column-0 ones from 47.5 to 67.5, the column-4 one from 72.5 to 82.5 |
| Scenario.SampleRows | src/scripts/FauxCode.js:121-127 | the sample's rows as strokes, on baselines 50 and 60 |
| Scenario.SampleCodeBlock | src/scripts/FauxCode.js:137-144 | the sample's code block: two strokes on row 0 and one on row 1 |
| Scenario.SampleLineNumbers | src/scripts/FauxCode.js:146-158 | both one-digit rows of the sample get a line-number tick of zero length at 32.5 |
| Scenario.SampleSnippet | src/scripts/FauxCode.js:160-168 | the sample end to end: size, code strokes and line-number ticks together |

## Left out

- The DOM: a line is given as its list of child nodes (tag is SPAN or not, class name, text). `childNodes`, `textContent` and the surrounding page (`main.js`) are not part of this model.
- The theme JSON files and the class-binding table are injected as maps. Their contents are data.
- `loadTheme` with an unknown theme name: the constructor requires a known name. JavaScript would store `undefined` and fail on the first colour lookup.
- The development-build `console.warn` for an unresolved class is a side effect. It is left out.
- Number-to-string conversion is an injected `fmt`. JavaScript's shortest round-trip formatting is not modelled, and neither is floating-point rounding: the arithmetic is over exact reals.
- Text is a sequence of characters. JavaScript counts UTF-16 code units, so characters outside the Basic Multilingual Plane are not modelled.
- FauxCodeRenderer.FauxCode.TicksInsideCanvas: bounds the drawn columns, not the pixel ends of the strokes. The half-font-size offsets and round line caps reach past the columns, and a column-0 stroke reaches into the left margin.
- The SVG text is compared as strings. No XML parsing or well-formedness is modelled beyond the fixed opening and closing of each group.
