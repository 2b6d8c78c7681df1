/**
 * `splitAndTrim`: cuts a text into the stretches between space characters.
 * Only `' '` separates; tabs and newlines belong to segments. The scan runs
 * one position past the end of the text, so a text that is empty or ends in
 * `' '` yields a final empty segment at `[|text|, |text|)`.
 */
module Tokenizer {
  import opened Wrappers

  /** A segment of a text: `text == whole[start..end]` and `length == end - start`. */
  datatype Segment = Segment(start: nat, end: nat, text: string, length: nat)

  /** The segment object the scan pushes when it closes at `end`. */
  function Close(text: string, start: nat, end: nat): Segment
    requires start <= end <= |text|
  {
    Segment(start, end, text[start..end], end - start)
  }

  /**
   * The scan as a state machine: `pos` is the loop position and `open` the
   * start of the segment being read, if any. At `pos == |text|` the character
   * reads as `undefined`, which is not a space and yet closes the segment.
   */
  function ScanFrom(text: string, pos: nat, open: Option<nat>): seq<Segment>
    requires pos <= |text| + 1
    requires open.Some? ==> open.value <= pos
    decreases |text| + 1 - pos
  {
    if pos > |text| then []
    else
      var current := Opened(text, pos, open);
      if Emits(text, pos, open) then
        [Close(text, current.value, pos)] + ScanFrom(text, pos + 1, None)
      else
        ScanFrom(text, pos + 1, current)
  }

  /** What `splitAndTrim(text)` returns. */
  function Split(text: string): seq<Segment> {
    ScanFrom(text, 0, None)
  }

  /** The source's loop: one pass over positions `0..|text|` inclusive. */
  method SplitAndTrim(text: string) returns (output: seq<Segment>)
    ensures output == Split(text)
  {
    output := [];
    var length := |text|;
    var segment: Option<nat> := None;
    var position := 0;
    while position <= length
      invariant position <= length + 1
      invariant segment.Some? ==> segment.value <= position
      invariant output + ScanFrom(text, position, segment) == Split(text)
    {
      if segment.None? && (position == length || text[position] != ' ') {
        segment := Some(position);
      }
      // The source also tests that the open segment has no `end` yet; a segment
      // is dropped as soon as its `end` is set, so that test always passes here.
      if segment.Some? {
        if position == length || text[position] == ' ' {
          output := output + [Close(text, segment.value, position)];
          segment := None;
        }
      }
      position := position + 1;
    }
  }

  predicate NoSpace(text: string, lo: nat, hi: nat)
    requires lo <= hi <= |text|
  {
    forall k :: lo <= k < hi ==> text[k] != ' '
  }

  /** `[lo, hi)` is a maximal stretch without `' '`: bounded by a space or an end of the text. */
  predicate IsTokenRange(text: string, lo: int, hi: int) {
    && 0 <= lo <= hi <= |text|
    && NoSpace(text, lo, hi)
    && (lo == 0 || text[lo - 1] == ' ')
    && (hi == |text| || text[hi] == ' ')
  }

  predicate IsToken(text: string, g: Segment) {
    && IsTokenRange(text, g.start, g.end)
    && g.text == text[g.start..g.end]
    && g.length == g.end - g.start
  }

  /** Segments come in increasing order, each ending before the next one starts. */
  predicate Ordered(segs: seq<Segment>) {
    forall i, j :: 0 <= i < j < |segs| ==> segs[i].end < segs[j].start
  }

  /** Every segment is a token of `text` starting at or after `lo`. */
  predicate AllTokens(text: string, segs: seq<Segment>, lo: nat) {
    forall i :: 0 <= i < |segs| ==> IsToken(text, segs[i]) && lo <= segs[i].start
  }

  predicate InSegment(g: Segment, k: int) {
    g.start <= k < g.end
  }

  /** Every non-space character at or after `lo` lies inside some segment. */
  predicate Covers(text: string, segs: seq<Segment>, lo: nat) {
    forall k :: lo <= k < |text| && text[k] != ' ' ==>
      exists i :: 0 <= i < |segs| && InSegment(segs[i], k)
  }

  /** No character lies in two segments. */
  ghost predicate CoversOnce(segs: seq<Segment>) {
    forall k, i, j :: 0 <= i < |segs| && 0 <= j < |segs| && InSegment(segs[i], k) && InSegment(segs[j], k) ==> i == j
  }

  /** An empty segment can only be the last one, and it sits at the end of the text. */
  predicate EmptyOnlyLast(text: string, segs: seq<Segment>) {
    forall i :: 0 <= i < |segs| && segs[i].length == 0 ==> i == |segs| - 1 && segs[i].start == |text|
  }

  predicate HasEmpty(segs: seq<Segment>) {
    exists i :: 0 <= i < |segs| && segs[i].length == 0
  }

  /** The texts for which the scan ends with no segment open. */
  predicate EndsOpen(text: string) {
    |text| == 0 || text[|text| - 1] == ' '
  }

  /** The states the scan can be in when it reaches `pos`. */
  predicate StateOk(text: string, pos: nat, open: Option<nat>) {
    && pos <= |text| + 1
    && match open
       case None => pos == 0 || pos == |text| + 1 || text[pos - 1] == ' '
       case Some(s) => s < pos <= |text| && (s == 0 || text[s - 1] == ' ') && NoSpace(text, s, pos)
  }

  function Lower(pos: nat, open: Option<nat>): nat {
    if open.Some? then open.value else pos
  }

  /** The state the scan is in after position `pos`, and whether it emits there. */
  function Opened(text: string, pos: nat, open: Option<nat>): Option<nat>
    requires pos <= |text|
  {
    if open.None? && (pos == |text| || text[pos] != ' ') then Some(pos) else open
  }

  predicate Emits(text: string, pos: nat, open: Option<nat>)
    requires pos <= |text|
  {
    Opened(text, pos, open).Some? && (pos == |text| || text[pos] == ' ')
  }

  lemma {:induction false} ScanTokens(text: string, pos: nat, open: Option<nat>)
    requires StateOk(text, pos, open)
    decreases |text| + 1 - pos
    ensures AllTokens(text, ScanFrom(text, pos, open), Lower(pos, open))
  {
    if pos <= |text| {
      var segs := ScanFrom(text, pos, open);
      var current := Opened(text, pos, open);
      if Emits(text, pos, open) {
        var rest := ScanFrom(text, pos + 1, None);
        ScanTokens(text, pos + 1, None);
        assert segs == [Close(text, current.value, pos)] + rest;
        forall i | 0 <= i < |segs|
          ensures IsToken(text, segs[i]) && Lower(pos, open) <= segs[i].start
        {
          if i > 0 { assert segs[i] == rest[i - 1]; }
        }
      } else {
        ScanTokens(text, pos + 1, current);
      }
    }
  }

  lemma {:induction false} ScanOrdered(text: string, pos: nat, open: Option<nat>)
    requires StateOk(text, pos, open)
    decreases |text| + 1 - pos
    ensures Ordered(ScanFrom(text, pos, open))
  {
    if pos <= |text| {
      var segs := ScanFrom(text, pos, open);
      var current := Opened(text, pos, open);
      if Emits(text, pos, open) {
        var rest := ScanFrom(text, pos + 1, None);
        ScanOrdered(text, pos + 1, None);
        ScanTokens(text, pos + 1, None);
        var g := Close(text, current.value, pos);
        assert segs == [g] + rest;
        OrderedCons(g, rest);
      } else {
        ScanOrdered(text, pos + 1, current);
      }
    }
  }

  /** A segment ending before every segment of an ordered list can go in front of it. */
  lemma OrderedCons(g: Segment, rest: seq<Segment>)
    requires Ordered(rest)
    requires forall j :: 0 <= j < |rest| ==> g.end < rest[j].start
    ensures Ordered([g] + rest)
  {
    var segs := [g] + rest;
    forall i, j | 0 <= i < j < |segs|
      ensures segs[i].end < segs[j].start
    {
      assert segs[j] == rest[j - 1];
      if i > 0 { assert segs[i] == rest[i - 1]; }
    }
  }

  lemma {:induction false} ScanCovers(text: string, pos: nat, open: Option<nat>)
    requires StateOk(text, pos, open)
    decreases |text| + 1 - pos
    ensures Covers(text, ScanFrom(text, pos, open), Lower(pos, open))
  {
    if pos <= |text| {
      var segs := ScanFrom(text, pos, open);
      var current := Opened(text, pos, open);
      if Emits(text, pos, open) {
        var rest := ScanFrom(text, pos + 1, None);
        ScanCovers(text, pos + 1, None);
        assert segs == [Close(text, current.value, pos)] + rest;
        forall k | Lower(pos, open) <= k < |text| && text[k] != ' '
          ensures exists i :: 0 <= i < |segs| && InSegment(segs[i], k)
        {
          if k < pos {
            assert InSegment(segs[0], k);
          } else {
            var i :| 0 <= i < |rest| && InSegment(rest[i], k);
            assert segs[i + 1] == rest[i];
          }
        }
      } else {
        ScanCovers(text, pos + 1, current);
      }
    }
  }

  lemma {:induction false} ScanEmpty(text: string, pos: nat, open: Option<nat>)
    requires StateOk(text, pos, open)
    decreases |text| + 1 - pos
    ensures EmptyOnlyLast(text, ScanFrom(text, pos, open))
    ensures pos <= |text| ==> ScanFrom(text, pos, open) != []
    ensures pos <= |text| ==> (HasEmpty(ScanFrom(text, pos, open)) <==> EndsOpen(text))
  {
    if pos <= |text| {
      var segs := ScanFrom(text, pos, open);
      var current := Opened(text, pos, open);
      if Emits(text, pos, open) {
        var g := Close(text, current.value, pos);
        var rest := ScanFrom(text, pos + 1, None);
        ScanEmpty(text, pos + 1, None);
        assert segs == [g] + rest;
        forall i | 0 <= i < |segs| && segs[i].length == 0
          ensures i == |segs| - 1 && segs[i].start == |text|
        {
          if i == 0 {
            assert rest == [];
          } else {
            assert segs[i] == rest[i - 1];
          }
        }
        if pos == |text| {
          assert rest == [];
          assert segs[0] == g;
          assert HasEmpty(segs) <==> g.length == 0;
        } else {
          assert g.length > 0;
          assert HasEmpty(segs) ==> HasEmpty(rest) by {
            if HasEmpty(segs) {
              var i :| 0 <= i < |segs| && segs[i].length == 0;
              assert segs[i] == rest[i - 1];
            }
          }
          assert HasEmpty(rest) ==> HasEmpty(segs) by {
            if HasEmpty(rest) {
              var i :| 0 <= i < |rest| && rest[i].length == 0;
              assert segs[i + 1] == rest[i];
            }
          }
        }
      } else {
        ScanEmpty(text, pos + 1, current);
      }
    }
  }

  /**
   * What `splitAndTrim` promises: every segment is a maximal space-free
   * stretch of the text with matching `text` and `length`; segments are in
   * order and disjoint; every non-space character lies in exactly one of
   * them; the output is never empty; and the only empty segment is the last,
   * at the end of the text, present exactly when the text is empty or ends
   * in a space.
   */
  lemma SplitFacts(text: string)
    ensures Split(text) != []
    ensures AllTokens(text, Split(text), 0)
    ensures Ordered(Split(text))
    ensures Covers(text, Split(text), 0)
    ensures CoversOnce(Split(text))
    ensures EmptyOnlyLast(text, Split(text))
    ensures HasEmpty(Split(text)) <==> EndsOpen(text)
  {
    ScanTokens(text, 0, None);
    ScanOrdered(text, 0, None);
    ScanCovers(text, 0, None);
    ScanEmpty(text, 0, None);
  }
}
