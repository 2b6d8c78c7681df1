/**
 * The renderer's input: a code line is the ordered list of a line element's
 * child nodes, each either a SPAN carrying a syntax class or a bare text node.
 */
module Content {

  /** One child node of a line: `isSpan` stands for `tagName === 'SPAN'`. */
  datatype Run = Run(isSpan: bool, className: string, text: string)

  type Line = seq<Run>

  /** The line's `textContent`: its children's texts, one after another. */
  function LineText(runs: Line): (t: string)
    ensures runs == [] ==> t == []
  {
    if runs == [] then [] else LineText(runs[..|runs| - 1]) + runs[|runs| - 1].text
  }

  /** Where child `j` starts within the line's text. */
  function RunOffset(runs: Line, j: nat): nat
    requires j <= |runs|
  {
    |LineText(runs[..j])|
  }

  /** Child `j`'s text sits at `RunOffset(runs, j)` inside the line's text. */
  lemma {:induction false} RunTextInLine(runs: Line, j: nat)
    requires j < |runs|
    ensures RunOffset(runs, j) + |runs[j].text| <= |LineText(runs)|
    ensures LineText(runs)[RunOffset(runs, j)..RunOffset(runs, j) + |runs[j].text|] == runs[j].text
  {
    var n := |runs|;
    var init := runs[..n - 1];
    if j == n - 1 {
      assert runs[..j] == init;
    } else {
      RunTextInLine(init, j);
      assert init[..j] == runs[..j];
      assert LineText(runs) == LineText(init) + runs[n - 1].text;
    }
  }
}
