/**
 * The strokes `createCodeLine` asks `drawLine` for, as the arguments of each
 * call: the character column `x`, the length `dx` in characters, and the
 * colour. The running `index` of the source is the offset of the child's text
 * within the line's text.
 */
module Layout {
  import opened Wrappers
  import opened Content
  import opened Tokenizer
  import opened Theme

  datatype Tick = Tick(x: int, dx: int, color: Option<string>)

  predicate InTick(t: Tick, k: int) {
    t.x <= k < t.x + t.dx
  }

  /** The call one segment makes: a tick when the segment is not empty, nothing otherwise. */
  function SegmentTicks(g: Segment, index: int, color: Option<string>): seq<Tick>
  {
    if g.length != 0 then [Tick(g.start + index, g.length, color)] else []
  }

  /** The calls made for one child: one per non-empty segment, in order, at `start + index`. */
  function RunTicks(segs: seq<Segment>, index: int, color: Option<string>): (ticks: seq<Tick>)
    ensures forall i :: 0 <= i < |ticks| ==> ticks[i].dx > 0 && ticks[i].color == color
  {
    if segs == [] then []
    else
      var g := segs[|segs| - 1];
      RunTicks(segs[..|segs| - 1], index, color) + SegmentTicks(g, index, color)
  }

  /** The calls made for a whole line, child after child; each child is offset by the texts before it. */
  function LineTicks(runs: Line, bindings: Bindings, theme: Theme): (ticks: seq<Tick>)
    ensures forall i :: 0 <= i < |ticks| ==> ticks[i].dx > 0
  {
    if runs == [] then []
    else
      var init := runs[..|runs| - 1];
      var last := runs[|runs| - 1];
      LineTicks(init, bindings, theme)
        + RunTicks(Split(last.text), |LineText(init)|, ElementThemeColor(last, bindings, theme))
  }

  predicate FromSegment(t: Tick, g: Segment, index: int) {
    t.x == g.start + index && t.dx == g.length
  }

  /** Ticks left to right, none overlapping the next. */
  predicate Sorted(ticks: seq<Tick>) {
    forall i, j :: 0 <= i < j < |ticks| ==> ticks[i].x + ticks[i].dx <= ticks[j].x
  }

  /** Ticks left to right with at least one column between neighbours. */
  predicate Separated(ticks: seq<Tick>) {
    forall i, j :: 0 <= i < j < |ticks| ==> ticks[i].x + ticks[i].dx < ticks[j].x
  }

  /** Every tick is drawn for a non-empty segment. */
  ghost predicate TicksFromSegments(ticks: seq<Tick>, segs: seq<Segment>, index: int) {
    forall i :: 0 <= i < |ticks| ==> exists s :: 0 <= s < |segs| && segs[s].length > 0 && FromSegment(ticks[i], segs[s], index)
  }

  /** Every non-empty segment is drawn. */
  ghost predicate SegmentsDrawn(ticks: seq<Tick>, segs: seq<Segment>, index: int) {
    forall s :: 0 <= s < |segs| && segs[s].length > 0 ==> exists i :: 0 <= i < |ticks| && FromSegment(ticks[i], segs[s], index)
  }

  /** Every tick spans a maximal space-free stretch of `text`, shifted by `index`. */
  predicate TicksAreTokens(ticks: seq<Tick>, text: string, index: int) {
    forall i :: 0 <= i < |ticks| ==> IsTokenRange(text, ticks[i].x - index, ticks[i].x + ticks[i].dx - index)
  }

  /** Every non-space character of `text`, shifted by `index`, lies under a tick. */
  ghost predicate TicksCover(ticks: seq<Tick>, text: string, index: int) {
    forall k :: 0 <= k < |text| && text[k] != ' ' ==> exists i :: 0 <= i < |ticks| && InTick(ticks[i], k + index)
  }

  /** The last segment's tick, if it has one, comes after all the others. */
  lemma RunTicksSnoc(segs: seq<Segment>, index: int, color: Option<string>)
    requires segs != []
    ensures var g := segs[|segs| - 1];
      RunTicks(segs, index, color)
        == RunTicks(segs[..|segs| - 1], index, color) + (if g.length != 0 then [Tick(g.start + index, g.length, color)] else [])
  {
  }

  /** Every tick RunTicks makes is drawn for a non-empty segment. */
  lemma {:induction false} RunTicksFromSegments(segs: seq<Segment>, index: int, color: Option<string>)
    ensures TicksFromSegments(RunTicks(segs, index, color), segs, index)
  {
    if segs != [] {
      var n := |segs|;
      var init := segs[..n - 1];
      var prev := RunTicks(init, index, color);
      var ticks := RunTicks(segs, index, color);
      RunTicksFromSegments(init, index, color);
      RunTicksSnoc(segs, index, color);
      forall i | 0 <= i < |ticks|
        ensures exists s :: 0 <= s < |segs| && segs[s].length > 0 && FromSegment(ticks[i], segs[s], index)
      {
        if i < |prev| {
          assert ticks[i] == prev[i];
          var s :| 0 <= s < |init| && init[s].length > 0 && FromSegment(prev[i], init[s], index);
          assert segs[s] == init[s];
        } else {
          assert FromSegment(ticks[i], segs[n - 1], index);
        }
      }
    }
  }

  /** Segments in order give ticks in order, with a gap between neighbours. */
  lemma {:induction false} RunTicksSeparated(segs: seq<Segment>, index: int, color: Option<string>)
    requires Ordered(segs)
    requires forall s :: 0 <= s < |segs| ==> segs[s].length == segs[s].end - segs[s].start
    ensures Separated(RunTicks(segs, index, color))
  {
    if segs != [] {
      var n := |segs|;
      var init := segs[..n - 1];
      var last := segs[n - 1];
      assert Ordered(init);
      RunTicksSeparated(init, index, color);
      assert forall s :: 0 <= s < |init| ==> init[s].start + init[s].length < last.start by {
        forall s | 0 <= s < |init| ensures init[s].start + init[s].length < last.start {
          assert init[s] == segs[s];
        }
      }
      RunTicksBefore(init, index, color, last.start);
      SeparatedAppend(RunTicks(init, index, color), SegmentTicks(last, index, color));
    }
  }

  /** Segments ending before `bound` give ticks ending before `bound`, shifted by `index`. */
  lemma {:induction false} RunTicksBefore(segs: seq<Segment>, index: int, color: Option<string>, bound: int)
    requires forall s :: 0 <= s < |segs| ==> segs[s].start + segs[s].length < bound
    ensures forall i :: 0 <= i < |RunTicks(segs, index, color)| ==>
      RunTicks(segs, index, color)[i].x + RunTicks(segs, index, color)[i].dx < bound + index
  {
    if segs != [] {
      var init := segs[..|segs| - 1];
      assert forall s :: 0 <= s < |init| ==> init[s] == segs[s];
      RunTicksBefore(init, index, color, bound);
      var prev := RunTicks(init, index, color);
      var ticks: seq<Tick> := prev + SegmentTicks(segs[|segs| - 1], index, color);
      forall i | 0 <= i < |ticks|
        ensures ticks[i].x + ticks[i].dx < bound + index
      {
        if i < |prev| { assert ticks[i] == prev[i]; }
      }
    }
  }

  /** Two separated runs of ticks, the first ending before the second starts, stay separated together. */
  lemma SeparatedAppend(p: seq<Tick>, q: seq<Tick>)
    requires Separated(p) && Separated(q)
    requires forall i, j :: 0 <= i < |p| && 0 <= j < |q| ==> p[i].x + p[i].dx < q[j].x
    ensures Separated(p + q)
  {
    forall i, j | 0 <= i < j < |p + q|
      ensures (p + q)[i].x + (p + q)[i].dx < (p + q)[j].x
    {
      if j < |p| {
        assert (p + q)[i] == p[i] && (p + q)[j] == p[j];
      } else if i < |p| {
        assert (p + q)[i] == p[i] && (p + q)[j] == q[j - |p|];
      } else {
        assert (p + q)[i] == q[i - |p|] && (p + q)[j] == q[j - |p|];
      }
    }
  }

  /** Every non-empty segment gets its tick. */
  lemma {:induction false} RunTicksDrawAll(segs: seq<Segment>, index: int, color: Option<string>)
    ensures SegmentsDrawn(RunTicks(segs, index, color), segs, index)
  {
    if segs != [] {
      var n := |segs|;
      var init := segs[..n - 1];
      var prev := RunTicks(init, index, color);
      var ticks: seq<Tick> := prev + SegmentTicks(segs[n - 1], index, color);
      RunTicksDrawAll(init, index, color);
      forall s | 0 <= s < |segs| && segs[s].length > 0
        ensures exists i :: 0 <= i < |ticks| && FromSegment(ticks[i], segs[s], index)
      {
        if s < n - 1 {
          DrawnInPrefix(prev, ticks, init[s], index);
          assert segs[s] == init[s];
        } else {
          assert FromSegment(ticks[|prev|], segs[s], index);
        }
      }
    }
  }

  /** A segment drawn by some tick of `prev` is still drawn once more ticks follow. */
  lemma DrawnInPrefix(prev: seq<Tick>, ticks: seq<Tick>, g: Segment, index: int)
    requires prev <= ticks
    requires exists i :: 0 <= i < |prev| && FromSegment(prev[i], g, index)
    ensures exists i :: 0 <= i < |ticks| && FromSegment(ticks[i], g, index)
  {
    var i :| 0 <= i < |prev| && FromSegment(prev[i], g, index);
    assert ticks[i] == prev[i];
  }

  /** Ticks drawn from tokens of `text` span maximal space-free stretches of it, shifted by `index`. */
  lemma {:induction false} TicksOfTokens(segs: seq<Segment>, text: string, index: int, color: Option<string>)
    requires AllTokens(text, segs, 0)
    ensures TicksAreTokens(RunTicks(segs, index, color), text, index)
  {
    if segs != [] {
      var init := segs[..|segs| - 1];
      var g := segs[|segs| - 1];
      assert AllTokens(text, init, 0) by {
        forall i | 0 <= i < |init| ensures IsToken(text, init[i]) && 0 <= init[i].start {
          assert init[i] == segs[i];
        }
      }
      TicksOfTokens(init, text, index, color);
      RunTicksSnoc(segs, index, color);
      var t := Tick(g.start + index, g.length, color);
      TickOfToken(t, g, text, index);
      TokensAppend(RunTicks(init, index, color), SegmentTicks(g, index, color), text, index);
    }
  }

  lemma TokensAppend(a: seq<Tick>, b: seq<Tick>, text: string, index: int)
    requires TicksAreTokens(a, text, index) && TicksAreTokens(b, text, index)
    ensures TicksAreTokens(a + b, text, index)
  {
    forall i | 0 <= i < |a + b|
      ensures IsTokenRange(text, (a + b)[i].x - index, (a + b)[i].x + (a + b)[i].dx - index)
    {
      if i < |a| { assert (a + b)[i] == a[i]; } else { assert (a + b)[i] == b[i - |a|]; }
    }
  }

  lemma TickOfToken(t: Tick, g: Segment, text: string, index: int)
    requires IsToken(text, g) && FromSegment(t, g, index)
    ensures IsTokenRange(text, t.x - index, t.x + t.dx - index)
  {
  }

  /** Each tick of a child spans a maximal space-free stretch of its text, shifted by `index`. */
  lemma RunTicksAreTokens(text: string, index: int, color: Option<string>)
    ensures TicksAreTokens(RunTicks(Split(text), index, color), text, index)
  {
    ScanTokens(text, 0, None);
    TicksOfTokens(Split(text), text, index, color);
  }

  /** A child's ticks are separated by at least one column. */
  lemma RunTicksApart(text: string, index: int, color: Option<string>)
    ensures Separated(RunTicks(Split(text), index, color))
  {
    var segs := Split(text);
    ScanTokens(text, 0, None);
    ScanOrdered(text, 0, None);
    assert forall s :: 0 <= s < |segs| ==> IsToken(text, segs[s]);
    RunTicksSeparated(segs, index, color);
  }

  /** Every non-space character of a child's text lies under one of its ticks. */
  lemma RunTicksCover(text: string, index: int, color: Option<string>)
    ensures TicksCover(RunTicks(Split(text), index, color), text, index)
  {
    var segs := Split(text);
    var ticks := RunTicks(segs, index, color);
    ScanCovers(text, 0, None);
    ScanTokens(text, 0, None);
    RunTicksDrawAll(segs, index, color);
    forall k | 0 <= k < |text| && text[k] != ' '
      ensures exists i :: 0 <= i < |ticks| && InTick(ticks[i], k + index)
    {
      var s :| 0 <= s < |segs| && InSegment(segs[s], k);
      assert IsToken(text, segs[s]);
      var i :| 0 <= i < |ticks| && FromSegment(ticks[i], segs[s], index);
      assert InTick(ticks[i], k + index);
    }
  }

  /**
   * Tick `t` was drawn for child `j`: it spans a maximal space-free stretch
   * of that child's text, placed at the child's offset in the line, and has
   * the child's resolved colour.
   */
  predicate OwnedBy(runs: Line, j: nat, t: Tick, bindings: Bindings, theme: Theme)
    requires j < |runs|
  {
    var off := RunOffset(runs, j);
    && IsTokenRange(runs[j].text, t.x - off, t.x + t.dx - off)
    && t.color == ElementThemeColor(runs[j], bindings, theme)
  }

  /** Tick `t` was drawn for some child of the line. */
  ghost predicate Owned(runs: Line, t: Tick, bindings: Bindings, theme: Theme) {
    exists j :: 0 <= j < |runs| && OwnedBy(runs, j, t, bindings, theme)
  }

  ghost predicate AllOwned(runs: Line, ticks: seq<Tick>, bindings: Bindings, theme: Theme) {
    forall i :: 0 <= i < |ticks| ==> Owned(runs, ticks[i], bindings, theme)
  }

  /** Every tick lies inside the text and over non-space characters only. */
  predicate WithinText(ticks: seq<Tick>, text: string) {
    forall i :: 0 <= i < |ticks| ==>
      0 <= ticks[i].x <= ticks[i].x + ticks[i].dx <= |text| && NoSpace(text, ticks[i].x, ticks[i].x + ticks[i].dx)
  }

  lemma LineTicksSnoc(runs: Line, bindings: Bindings, theme: Theme)
    requires runs != []
    ensures var init := runs[..|runs| - 1];
      var last := runs[|runs| - 1];
      && LineTicks(runs, bindings, theme)
           == LineTicks(init, bindings, theme) + RunTicks(Split(last.text), |LineText(init)|, ElementThemeColor(last, bindings, theme))
      && LineText(runs) == LineText(init) + last.text
  {
  }

  /** Ownership by the earlier children survives appending a child. */
  lemma OwnedByPrefix(runs: Line, ticks: seq<Tick>, bindings: Bindings, theme: Theme)
    requires runs != []
    requires AllOwned(runs[..|runs| - 1], ticks, bindings, theme)
    ensures AllOwned(runs, ticks, bindings, theme)
  {
    var init := runs[..|runs| - 1];
    forall i | 0 <= i < |ticks|
      ensures Owned(runs, ticks[i], bindings, theme)
    {
      assert Owned(init, ticks[i], bindings, theme);
      var j :| 0 <= j < |init| && OwnedBy(init, j, ticks[i], bindings, theme);
      OwnedByExtend(runs, j, ticks[i], bindings, theme);
    }
  }

  lemma OwnedByExtend(runs: Line, j: nat, t: Tick, bindings: Bindings, theme: Theme)
    requires j < |runs| - 1
    requires OwnedBy(runs[..|runs| - 1], j, t, bindings, theme)
    ensures OwnedBy(runs, j, t, bindings, theme)
  {
    var init := runs[..|runs| - 1];
    assert init[..j] == runs[..j];
    assert RunOffset(init, j) == RunOffset(runs, j);
    assert init[j] == runs[j];
  }

  /** The ticks of the last child are owned by it. */
  lemma OwnedByLast(runs: Line, bindings: Bindings, theme: Theme)
    requires runs != []
    ensures var init := runs[..|runs| - 1];
      var last := runs[|runs| - 1];
      AllOwned(runs, RunTicks(Split(last.text), |LineText(init)|, ElementThemeColor(last, bindings, theme)), bindings, theme)
  {
    var n := |runs|;
    var init := runs[..n - 1];
    var last := runs[n - 1];
    var off := |LineText(init)|;
    var color := ElementThemeColor(last, bindings, theme);
    var tail := RunTicks(Split(last.text), off, color);
    RunTicksAreTokens(last.text, off, color);
    forall i | 0 <= i < |tail|
      ensures Owned(runs, tail[i], bindings, theme)
    {
      assert OwnedBy(runs, n - 1, tail[i], bindings, theme);
    }
  }

  lemma AllOwnedConcat(runs: Line, a: seq<Tick>, b: seq<Tick>, bindings: Bindings, theme: Theme)
    requires AllOwned(runs, a, bindings, theme) && AllOwned(runs, b, bindings, theme)
    ensures AllOwned(runs, a + b, bindings, theme)
  {
    forall i | 0 <= i < |a + b|
      ensures Owned(runs, (a + b)[i], bindings, theme)
    {
      if i < |a| { assert (a + b)[i] == a[i]; } else { assert (a + b)[i] == b[i - |a|]; }
    }
  }

  /** One more segment of a child: its tick, if it has one, is appended. */
  lemma RunTicksStep(segs: seq<Segment>, j: nat, index: int, color: Option<string>)
    requires j < |segs|
    ensures RunTicks(segs[..j + 1], index, color)
      == RunTicks(segs[..j], index, color) + SegmentTicks(segs[j], index, color)
  {
    assert segs[..j + 1][..j] == segs[..j];
  }

  /** One more child of a line: its ticks are appended, at the offset of the text before it. */
  lemma LineTicksStep(runs: Line, i: nat, bindings: Bindings, theme: Theme)
    requires i < |runs|
    ensures LineTicks(runs[..i + 1], bindings, theme)
      == LineTicks(runs[..i], bindings, theme)
        + RunTicks(Split(runs[i].text), |LineText(runs[..i])|, ElementThemeColor(runs[i], bindings, theme))
    ensures LineText(runs[..i + 1]) == LineText(runs[..i]) + runs[i].text
  {
    assert runs[..i + 1][..i] == runs[..i];
    LineTicksSnoc(runs[..i + 1], bindings, theme);
  }

  /** Each tick of a line belongs to one of its children. */
  lemma {:induction false} LineTicksOwned(runs: Line, bindings: Bindings, theme: Theme)
    ensures AllOwned(runs, LineTicks(runs, bindings, theme), bindings, theme)
  {
    if runs != [] {
      var n := |runs|;
      var init := runs[..n - 1];
      var last := runs[n - 1];
      var off := |LineText(init)|;
      var color := ElementThemeColor(last, bindings, theme);
      var prev := LineTicks(init, bindings, theme);
      var tail := RunTicks(Split(last.text), off, color);
      assert LineTicks(runs, bindings, theme) == prev + tail;
      LineTicksOwned(init, bindings, theme);
      OwnedByPrefix(runs, prev, bindings, theme);
      OwnedByLast(runs, bindings, theme);
      AllOwnedConcat(runs, prev, tail, bindings, theme);
    }
  }

  /** A stretch of the first part of a text keeps its characters when more text follows. */
  lemma NoSpaceAppend(a: string, b: string, lo: nat, hi: nat)
    requires lo <= hi <= |a| && NoSpace(a, lo, hi)
    ensures NoSpace(a + b, lo, hi)
  {
    forall k | lo <= k < hi ensures (a + b)[k] != ' ' {
      assert (a + b)[k] == a[k];
    }
  }

  /** A stretch of the second part of a text, shifted by the first part's length. */
  lemma NoSpacePrepend(a: string, b: string, lo: nat, hi: nat)
    requires lo <= hi <= |b| && NoSpace(b, lo, hi)
    ensures NoSpace(a + b, |a| + lo, |a| + hi)
  {
    forall k | |a| + lo <= k < |a| + hi ensures (a + b)[k] != ' ' {
      assert (a + b)[k] == b[k - |a|];
    }
  }

  /** Ticks within a text stay within it when more text follows. */
  lemma WithinTextAppend(ticks: seq<Tick>, a: string, b: string)
    requires WithinText(ticks, a)
    ensures WithinText(ticks, a + b)
  {
    forall i | 0 <= i < |ticks|
      ensures NoSpace(a + b, ticks[i].x, ticks[i].x + ticks[i].dx)
    {
      NoSpaceAppend(a, b, ticks[i].x, ticks[i].x + ticks[i].dx);
    }
  }

  /** The last child's ticks lie within the line's text. */
  lemma WithinTextLast(a: string, b: string, color: Option<string>)
    ensures WithinText(RunTicks(Split(b), |a|, color), a + b)
  {
    var ticks := RunTicks(Split(b), |a|, color);
    RunTicksAreTokens(b, |a|, color);
    forall i | 0 <= i < |ticks|
      ensures 0 <= ticks[i].x <= ticks[i].x + ticks[i].dx <= |a + b|
      ensures NoSpace(a + b, ticks[i].x, ticks[i].x + ticks[i].dx)
    {
      var t := ticks[i];
      assert IsTokenRange(b, t.x - |a|, t.x + t.dx - |a|);
      NoSpacePrepend(a, b, t.x - |a|, t.x + t.dx - |a|);
    }
  }

  lemma WithinTextConcat(p: seq<Tick>, q: seq<Tick>, text: string)
    requires WithinText(p, text) && WithinText(q, text)
    ensures WithinText(p + q, text)
  {
    forall i | 0 <= i < |p + q|
      ensures 0 <= (p + q)[i].x <= (p + q)[i].x + (p + q)[i].dx <= |text|
      ensures NoSpace(text, (p + q)[i].x, (p + q)[i].x + (p + q)[i].dx)
    {
      if i < |p| { assert (p + q)[i] == p[i]; } else { assert (p + q)[i] == q[i - |p|]; }
    }
  }

  /** A line's ticks lie within its text, over non-space characters. */
  lemma {:induction false} LineTicksWithinText(runs: Line, bindings: Bindings, theme: Theme)
    ensures WithinText(LineTicks(runs, bindings, theme), LineText(runs))
  {
    if runs != [] {
      var n := |runs|;
      var init := runs[..n - 1];
      var last := runs[n - 1];
      var color := ElementThemeColor(last, bindings, theme);
      var prev := LineTicks(init, bindings, theme);
      var tail := RunTicks(Split(last.text), |LineText(init)|, color);
      LineTicksSnoc(runs, bindings, theme);
      LineTicksWithinText(init, bindings, theme);
      WithinTextAppend(prev, LineText(init), last.text);
      WithinTextLast(LineText(init), last.text, color);
      WithinTextConcat(prev, tail, LineText(runs));
    }
  }

  /** A line's ticks run left to right without overlapping. */
  lemma {:induction false} LineTicksSorted(runs: Line, bindings: Bindings, theme: Theme)
    ensures Sorted(LineTicks(runs, bindings, theme))
  {
    if runs != [] {
      var n := |runs|;
      var init := runs[..n - 1];
      var last := runs[n - 1];
      var off := |LineText(init)|;
      var color := ElementThemeColor(last, bindings, theme);
      var prev := LineTicks(init, bindings, theme);
      var tail := RunTicks(Split(last.text), off, color);
      var ticks := LineTicks(runs, bindings, theme);
      LineTicksSnoc(runs, bindings, theme);
      LineTicksSorted(init, bindings, theme);
      LineTicksWithinText(init, bindings, theme);
      RunTicksAreTokens(last.text, off, color);
      RunTicksApart(last.text, off, color);
      forall i, j | 0 <= i < j < |ticks|
        ensures ticks[i].x + ticks[i].dx <= ticks[j].x
      {
        if j < |prev| {
          assert ticks[i] == prev[i] && ticks[j] == prev[j];
        } else if i < |prev| {
          assert ticks[i] == prev[i];
          assert ticks[j] == tail[j - |prev|];
        } else {
          assert ticks[i] == tail[i - |prev|] && ticks[j] == tail[j - |prev|];
        }
      }
    }
  }

  /** Every non-space character of a line lies under one of its ticks. */
  lemma {:induction false} LineTicksCover(runs: Line, bindings: Bindings, theme: Theme)
    ensures TicksCover(LineTicks(runs, bindings, theme), LineText(runs), 0)
  {
    if runs != [] {
      var n := |runs|;
      var init := runs[..n - 1];
      var last := runs[n - 1];
      var off := |LineText(init)|;
      var color := ElementThemeColor(last, bindings, theme);
      var prev := LineTicks(init, bindings, theme);
      var tail := RunTicks(Split(last.text), off, color);
      LineTicksSnoc(runs, bindings, theme);
      LineTicksCover(init, bindings, theme);
      RunTicksCover(last.text, off, color);
      CoverConcat(prev, tail, LineText(init), last.text);
    }
  }

  /** Ticks covering two texts, the second's shifted by the first's length, cover the texts joined. */
  lemma CoverConcat(p: seq<Tick>, q: seq<Tick>, a: string, b: string)
    requires TicksCover(p, a, 0) && TicksCover(q, b, |a|)
    ensures TicksCover(p + q, a + b, 0)
  {
    var text := a + b;
    forall k | 0 <= k < |text| && text[k] != ' '
      ensures exists i :: 0 <= i < |p + q| && InTick((p + q)[i], k + 0)
    {
      if k < |a| {
        assert a[k] == text[k];
        var i :| 0 <= i < |p| && InTick(p[i], k + 0);
        assert (p + q)[i] == p[i];
      } else {
        assert b[k - |a|] == text[k];
        var i :| 0 <= i < |q| && InTick(q[i], k - |a| + |a|);
        assert (p + q)[|p| + i] == q[i];
      }
    }
  }

  /**
   * What `createCodeLine` draws for a line, stated over the line's text:
   * every stroke spans a maximal space-free stretch of one child's text and
   * has that child's colour, the strokes run left to right without
   * overlapping, and every non-space character of the line lies under
   * exactly one stroke.
   */
  lemma LineTicksFacts(runs: Line, bindings: Bindings, theme: Theme)
    ensures AllOwned(runs, LineTicks(runs, bindings, theme), bindings, theme)
    ensures WithinText(LineTicks(runs, bindings, theme), LineText(runs))
    ensures Sorted(LineTicks(runs, bindings, theme))
    ensures TicksCover(LineTicks(runs, bindings, theme), LineText(runs), 0)
    ensures CoveredOnce(LineTicks(runs, bindings, theme))
  {
    LineTicksOwned(runs, bindings, theme);
    LineTicksWithinText(runs, bindings, theme);
    LineTicksSorted(runs, bindings, theme);
    LineTicksCover(runs, bindings, theme);
  }

  /** No column lies under two ticks. */
  ghost predicate CoveredOnce(ticks: seq<Tick>) {
    forall k, i, j :: 0 <= i < |ticks| && 0 <= j < |ticks| && InTick(ticks[i], k) && InTick(ticks[j], k) ==> i == j
  }
}
