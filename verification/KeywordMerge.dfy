/** Which segments of a log hold a keyword: one forward pass over the keyword lines and the lines that
    separate segments. */
module KeywordMerge {

  /** A segment goes from one separating line to the next. */
  datatype Segment = Segment(first: nat, last: nat)

  /** A file of line numbers, read one at a time; -1 when there is none left. */
  class LineReader {
    const lines: seq<nat>
    var next: nat

    ghost predicate Valid()
      reads this
    {
      next <= |lines|
    }

    constructor (lines: seq<nat>)
      ensures Valid() && this.lines == lines && next == 0
    {
      this.lines, next := lines, 0;
    }

    method ReadLineNum() returns (n: int)
      requires Valid()
      modifies this
      ensures Valid()
      ensures old(next) == |lines| ==> n == -1 && next == old(next)
      ensures old(next) < |lines| ==> n == lines[old(next)] && next == old(next) + 1
    {
      if next == |lines| { return -1; }
      n := lines[next];
      next := next + 1;
    }
  }

  ghost predicate NonDecreasing(lines: seq<nat>) {
    forall i, j :: 0 <= i < j < |lines| ==> lines[i] <= lines[j]
  }

  ghost predicate Increasing(lines: seq<nat>) {
    forall i, j :: 0 <= i < j < |lines| ==> lines[i] < lines[j]
  }

  // ------------------------------------------------------------------ the specification

  /** Whether a keyword lies strictly inside a segment. */
  predicate HasKeyword(keywords: seq<nat>, first: nat, last: nat) {
    exists k :: k in keywords && first < k < last
  }

  /** The obvious specification: for each pair of adjacent markers look through all keywords. */
  function Segments(keywords: seq<nat>, markers: seq<nat>): seq<Segment> {
    if |markers| < 2 then []
    else
      var first, last := markers[|markers| - 2], markers[|markers| - 1];
      Segments(keywords, markers[..|markers| - 1]) +
        if HasKeyword(keywords, first, last) then [Segment(first, last)] else []
  }

  /** What one forward pass finds: it passes over a segment whose first line itself holds a keyword. */
  function Found(keywords: seq<nat>, markers: seq<nat>): seq<Segment> {
    if |markers| < 2 then []
    else
      var first, last := markers[|markers| - 2], markers[|markers| - 1];
      Found(keywords, markers[..|markers| - 1]) +
        if HasKeyword(keywords, first, last) && first !in keywords then [Segment(first, last)] else []
  }

  /** The pairs of adjacent markers. */
  predicate Adjacent(markers: seq<nat>, i: nat, s: Segment) {
    i + 1 < |markers| && s == Segment(markers[i], markers[i + 1])
  }

  lemma {:induction false} SegmentsAreExact(keywords: seq<nat>, markers: seq<nat>, s: Segment)
    ensures s in Segments(keywords, markers) <==>
      HasKeyword(keywords, s.first, s.last) && exists i: nat :: Adjacent(markers, i, s)
  {
    if |markers| >= 2 {
      var init, n := markers[..|markers| - 1], |markers| - 2;
      SegmentsAreExact(keywords, init, s);
      assert forall i: nat :: i < n ==> (Adjacent(init, i, s) <==> Adjacent(markers, i, s));
      assert s == Segment(markers[n], markers[n + 1]) ==> Adjacent(markers, n, s);
    } else {
      assert forall i: nat :: !Adjacent(markers, i, s);
    }
  }

  ghost predicate InOrder(ss: seq<Segment>) {
    forall i, j :: 0 <= i < j < |ss| ==> ss[i].last <= ss[j].first
  }

  /** Each segment once, in the order of the log. */
  lemma {:induction false} SegmentsAreInOrder(keywords: seq<nat>, markers: seq<nat>)
    requires Increasing(markers)
    ensures InOrder(Segments(keywords, markers))
  {
    if |markers| >= 2 {
      var init := markers[..|markers| - 1];
      SegmentsAreInOrder(keywords, init);
      var found := Segments(keywords, init);
      forall i | 0 <= i < |found| ensures found[i].last <= init[|init| - 1] {
        SegmentsAreExact(keywords, init, found[i]);
        assert found[i] in found;
        var n: nat :| Adjacent(init, n, found[i]);
      }
    }
  }

  /** A marker that is a keyword although a keyword lies inside the segment it starts. */
  predicate Hidden(keywords: seq<nat>, markers: seq<nat>, i: nat) {
    i + 1 < |markers| && markers[i] in keywords && HasKeyword(keywords, markers[i], markers[i + 1])
  }

  lemma {:induction false} FoundIsWithin(keywords: seq<nat>, markers: seq<nat>)
    ensures |Found(keywords, markers)| <= |Segments(keywords, markers)|
    ensures |Found(keywords, markers)| == |Segments(keywords, markers)| <==>
      Found(keywords, markers) == Segments(keywords, markers)
  {
    if |markers| >= 2 { FoundIsWithin(keywords, markers[..|markers| - 1]); }
  }

  /** The forward pass meets the specification if and only if no segment with a keyword inside starts at a
      line that holds a keyword too. */
  lemma {:induction false} FoundIsAllIff(keywords: seq<nat>, markers: seq<nat>)
    ensures Found(keywords, markers) == Segments(keywords, markers) <==> forall i: nat :: !Hidden(keywords, markers, i)
  {
    if |markers| >= 2 {
      var init, n := markers[..|markers| - 1], |markers| - 2;
      FoundIsWithin(keywords, init);
      FoundIsWithin(keywords, markers);
      FoundIsAllIff(keywords, init);
      assert forall i: nat :: i != n ==> Hidden(keywords, markers, i) == Hidden(keywords, init, i);
      var first, last := markers[n], markers[n + 1];
      var isFound := HasKeyword(keywords, first, last) && first !in keywords;
      var isSegment := HasKeyword(keywords, first, last);
      assert Hidden(keywords, markers, n) <==> isFound != isSegment;
      assert |Found(keywords, markers)| == |Found(keywords, init)| + if isFound then 1 else 0;
      assert |Segments(keywords, markers)| == |Segments(keywords, init)| + if isSegment then 1 else 0;
      assert !Hidden(keywords, init, n);
    }
  }

  lemma NoKeywordOnMarker(keywords: seq<nat>, markers: seq<nat>)
    requires forall k :: k in keywords ==> k !in markers
    ensures Found(keywords, markers) == Segments(keywords, markers)
  {
    FoundIsAllIff(keywords, markers);
  }

  /** The failing case: the keyword on line 5 hides the one on line 7. */
  lemma KeywordOnMarkerHidesSegment()
    ensures Segments([5, 7], [5, 9]) == [Segment(5, 9)] && Found([5, 7], [5, 9]) == []
  {
    assert 7 in [5, 7];
    assert HasKeyword([5, 7], 5, 9);
    assert [5, 9][..1] == [5];
  }

  // ------------------------------------------------------------------ the pass

  /** head -n lines | tail -n count */
  datatype Extract = Extract(lines: nat, count: int)

  function Extracted<T>(log: seq<T>, e: Extract): seq<T>
    requires e.count >= 0
  {
    var head := if e.lines <= |log| then log[..e.lines] else log;
    if e.count <= |head| then head[|head| - e.count..] else head
  }

  function ExtractOf(s: Segment): Extract
    requires s.first <= s.last
  {
    Extract(s.last, s.last - s.first + 1)
  }

  /** The command prints the lines first .. last of the log, counted from 1. */
  lemma ExtractIsSegment<T>(log: seq<T>, s: Segment)
    requires 1 <= s.first <= s.last <= |log|
    ensures Extracted(log, ExtractOf(s)) == log[s.first - 1..s.last]
  {
  }

  ghost predicate Extracts(es: seq<Extract>, ss: seq<Segment>) {
    && |es| == |ss|
    && forall i :: 0 <= i < |es| ==> ss[i].first <= ss[i].last && es[i] == ExtractOf(ss[i])
  }

  datatype Result = NoData | Output(extracts: seq<Extract>)

  /** The keywords read so far lie before the current marker, unless the markers are used up. */
  ghost predicate Passed(keywords: seq<nat>, markers: seq<nat>, read: nat, at: nat) {
    read <= |keywords| && at < |markers| &&
    (at + 1 == |markers| || forall i :: 0 <= i < read ==> keywords[i] < markers[at])
  }

  /** The next marker, when the current keyword is not before the current one. */
  lemma NextMarker(keywords: seq<nat>, markers: seq<nat>, read: nat, at: nat)
    requires NonDecreasing(keywords) && Increasing(markers)
    requires Passed(keywords, markers, read, at) && read < |keywords| && at + 1 < |markers|
    requires keywords[read] >= markers[at]
    ensures var m, m', k := markers[at], markers[at + 1], keywords[read];
      && Passed(keywords, markers, read, at + 1) && m < m'
      && Found(keywords, markers[..at + 2])
      == Found(keywords, markers[..at + 1]) + if m < k < m' then [Segment(m, m')] else []
  {
    hide NonDecreasing, HasKeyword;
    InsideIff(keywords, read, markers[at], markers[at + 1]);
    assert markers[..at + 2][..at + 1] == markers[..at + 1];
  }

  /** What the current keyword says of the segment that starts at the current marker. */
  lemma InsideIff(keywords: seq<nat>, read: nat, m: nat, m': nat)
    requires NonDecreasing(keywords) && read < |keywords| && keywords[read] >= m
    requires forall i :: 0 <= i < read ==> keywords[i] < m
    ensures HasKeyword(keywords, m, m') && m !in keywords <==> m < keywords[read] < m'
  {
    hide NonDecreasing;
    assert keywords[read] in keywords;
    if m in keywords { NotBefore(keywords, read, m); }
    if HasKeyword(keywords, m, m') {
      var x :| x in keywords && m < x < m';
      NotBefore(keywords, read, x);
    }
  }

  /** The current keyword is the first one that is not before the current marker. */
  lemma NotBefore(keywords: seq<nat>, read: nat, x: nat)
    requires NonDecreasing(keywords) && read < |keywords| && x in keywords
    requires forall i :: 0 <= i < read ==> keywords[i] < x
    ensures keywords[read] <= x
  {
    var i :| 0 <= i < |keywords| && keywords[i] == x;
  }

  /** Once all keywords lie before the current marker, no later segment holds any. */
  lemma {:induction false} NothingFurther(keywords: seq<nat>, markers: seq<nat>, at: nat)
    requires Increasing(markers) && Passed(keywords, markers, |keywords|, at)
    ensures Found(keywords, markers) == Found(keywords, markers[..at + 1])
    decreases |markers|
  {
    if at + 1 < |markers| {
      var init := markers[..|markers| - 1];
      NothingFurther(keywords, init, at);
      assert init[..at + 1] == markers[..at + 1];
      assert forall k :: k in keywords ==> k < markers[at] <= markers[|markers| - 2];
    } else {
      assert markers[..at + 1] == markers;
    }
  }

  lemma OneMore(es: seq<Extract>, ss: seq<Segment>, s: Segment)
    requires Extracts(es, ss) && s.first <= s.last
    ensures Extracts(es + [ExtractOf(s)], ss + [s])
  {
  }

  lemma NoneYet(keywords: seq<nat>, markers: seq<nat>)
    requires |markers| > 0
    ensures Found(keywords, markers[..1]) == [] && Extracts([], []) && Passed(keywords, markers, 0, 0)
  {
  }

  lemma ReadOn(keywords: seq<nat>, markers: seq<nat>, read: nat, at: nat)
    requires Passed(keywords, markers, read, at) && read < |keywords|
    requires keywords[read] < markers[at] || at + 1 == |markers|
    ensures Passed(keywords, markers, read + 1, at)
  {
  }

  /** The main loops: no output at all without a marker, else, for sorted files, exactly what Found says, in
      order. */
  method Merge(keywordFile: LineReader, segFile: LineReader) returns (result: Result)
    requires keywordFile != segFile && keywordFile.Valid() && segFile.Valid()
    requires keywordFile.next == 0 && segFile.next == 0
    modifies keywordFile, segFile
    ensures result.NoData? <==> segFile.lines == []
    ensures result.Output? && NonDecreasing(keywordFile.lines) && Increasing(segFile.lines) ==>
      Extracts(result.extracts, Found(keywordFile.lines, segFile.lines))
  {
    hide Found, Extracts, Passed, NonDecreasing, Increasing;
    ghost var keywords, markers := keywordFile.lines, segFile.lines;
    ghost var sorted := NonDecreasing(keywords) && Increasing(markers);
    var lastSeg := segFile.ReadLineNum();
    if lastSeg == -1 { return NoData; }
    var extracts := [];
    ghost var found := [];
    NoneYet(keywords, markers);
    ghost var at := 0;
    var keyword := keywordFile.ReadLineNum();
    while keyword != -1
      invariant keywordFile.Valid() && segFile.Valid()
      invariant at < |markers| && lastSeg == markers[at] && segFile.next == at + 1
      invariant sorted && keyword == -1 ==> Passed(keywords, markers, |keywords|, at)
      invariant keyword != -1 ==>
        && 0 < keywordFile.next && keyword == keywords[keywordFile.next - 1]
        && (sorted ==> Passed(keywords, markers, keywordFile.next - 1, at))
      invariant sorted ==> found == Found(keywords, markers[..at + 1]) && Extracts(extracts, found)
      decreases if keyword == -1 then 0 else 1 + |keywords| - keywordFile.next
    {
      ghost var read := keywordFile.next - 1;
      var exitSearch := false;
      while !exitSearch
        invariant keywordFile.Valid() && segFile.Valid() && keywordFile.next == read + 1
        invariant at < |markers| && lastSeg == markers[at] && segFile.next == at + 1
        invariant sorted ==> Passed(keywords, markers, read, at)
        invariant sorted ==> found == Found(keywords, markers[..at + 1]) && Extracts(extracts, found)
        invariant exitSearch ==> keyword < lastSeg
        invariant keyword == keywords[read]
        decreases |markers| - at, !exitSearch
      {
        if keyword < lastSeg {
          exitSearch := true;
        } else {
          var currentSeg := segFile.ReadLineNum();
          if currentSeg == -1 { break; }
          if sorted { NextMarker(keywords, markers, read, at); }
          if keyword < currentSeg && keyword > lastSeg {
            if sorted { OneMore(extracts, found, Segment(lastSeg, currentSeg)); }
            extracts := extracts + [Extract(currentSeg, currentSeg - lastSeg + 1)];
            found := found + [Segment(lastSeg, currentSeg)];
            exitSearch := true;
          }
          lastSeg := currentSeg;
          at := at + 1;
        }
      }
      if sorted { ReadOn(keywords, markers, read, at); }
      keyword := keywordFile.ReadLineNum();
    }
    if sorted { NothingFurther(keywords, markers, at); }
    return Output(extracts);
  }
}
