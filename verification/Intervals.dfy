/** Covered lines as sorted, separated intervals, and the binary search over them (internal/coverage/map.go). */
module Intervals {
  import opened Sorting

  datatype Span = Span(start: int, end: int)

  /** An interval of lines; the profile parser refuses a block that ends before it starts. */
  type Interval = s: Span | s.start <= s.end witness Span(0, 0)

  /** Some interval holds this line. */
  ghost predicate Holds(s: seq<Interval>, line: int) { exists i :: 0 <= i < |s| && s[i].start <= line <= s[i].end }

  predicate Ordered(x: Interval, y: Interval) { x.start < y.start || (x.start == y.start && x.end <= y.end) }

  predicate ByStart(s: seq<Interval>) { forall i, j :: 0 <= i < j < |s| ==> s[i].start <= s[j].start }

  lemma SortedByStart(s: seq<Interval>)
    ensures ByStart(Sort(s, Ordered))
  {
    hide Sort;
    assert TotalOrder(Ordered);
    SortSorts(s, Ordered);
  }

  /** Sorted, and at least one free line between neighbours. */
  predicate Separated(s: seq<Interval>) { forall i :: 0 < i < |s| ==> s[i - 1].end + 1 < s[i].start }

  lemma SortHolds(s: seq<Interval>)
    ensures forall line :: Holds(Sort(s, Ordered), line) <==> Holds(s, line)
  {
    var r := Sort(s, Ordered);
    forall line ensures Holds(r, line) <==> Holds(s, line) {
      if i :| 0 <= i < |s| && s[i].start <= line <= s[i].end { assert s[i] in multiset(r); }
      if i :| 0 <= i < |r| && r[i].start <= line <= r[i].end { assert r[i] in multiset(s); }
    }
  }

  /** Sorts, then joins neighbours that touch or overlap: the same lines, held by separated intervals. */
  method Merge(intervals: seq<Interval>) returns (merged: seq<Interval>)
    ensures Separated(merged) && forall line :: Holds(merged, line) <==> Holds(intervals, line)
    ensures merged == [] <==> intervals == []
  {
    hide Sort, Holds, ByStart;
    if |intervals| < 2 { return intervals; }
    var sorted := Sort(intervals, Ordered);
    SortedByStart(intervals);
    SortHolds(intervals);
    assert |sorted| == |multiset(sorted)| == |multiset(intervals)| == |intervals|;
    merged := [sorted[0]];
    var k := 1;
    assert merged == sorted[..1];
    while k < |sorted|
      invariant 1 <= k <= |sorted| && merged != [] && Separated(merged)
      invariant SameLines(merged, sorted[..k])
      invariant merged[|merged| - 1].start <= sorted[k - 1].start
    {
      var next, last := sorted[k], merged[|merged| - 1];
      ghost var before := merged;
      if next.start <= last.end + 1 {
        merged := merged[|merged| - 1 := Span(last.start, if last.end >= next.end then last.end else next.end)];
      } else {
        merged := merged + [next];
      }
      MergeStep(before, merged, sorted, k);
      k := k + 1;
    }
    assert sorted[..k] == sorted;
  }

  ghost predicate SameLines(a: seq<Interval>, b: seq<Interval>) { forall line :: Holds(a, line) <==> Holds(b, line) }

  lemma MergeStep(before: seq<Interval>, after: seq<Interval>, sorted: seq<Interval>, k: nat)
    requires 0 < k < |sorted| && before != [] && ByStart(sorted) && before[|before| - 1].start <= sorted[k - 1].start
    requires SameLines(before, sorted[..k])
    requires var n, next, last := |before| - 1, sorted[k], before[|before| - 1];
             after == if next.start <= last.end + 1
                      then before[n := Span(last.start, if last.end >= next.end then last.end else next.end)]
                      else before + [next]
    ensures SameLines(after, sorted[..k + 1]) && sorted[k - 1].start <= sorted[k].start
  {
    var n, next := |before| - 1, sorted[k];
    forall line ensures Holds(after, line) <==> Holds(before, line) || next.start <= line <= next.end {
      if i :| 0 <= i < |before| && before[i].start <= line <= before[i].end { assert after[i].start <= line <= after[i].end; }
      if next.start <= line <= next.end {
        var j := |after| - 1;
        assert after[j].start <= line <= after[j].end;
      }
      if i :| 0 <= i < |after| && after[i].start <= line <= after[i].end {
        if i < |before| && before[i].start <= line <= before[i].end { assert Holds(before, line); }
      }
    }
    forall line ensures Holds(sorted[..k + 1], line) <==> Holds(sorted[..k], line) || next.start <= line <= next.end {
      assert forall i :: 0 <= i < k ==> sorted[..k + 1][i] == sorted[..k][i];
      assert sorted[..k + 1][k] == next;
    }
  }

  /** The first interval that does not end before the query decides. */
  method Overlaps(intervals: seq<Interval>, start: int, end: int) returns (r: bool)
    requires Separated(intervals)
    ensures r <==> exists line :: start <= line <= end && Holds(intervals, line)
  {
    if intervals == [] || start > end { return false; }
    SeparatedFar(intervals);
    var low, high := 0, |intervals|;
    while low < high
      invariant 0 <= low <= high <= |intervals|
      invariant forall i :: 0 <= i < low ==> intervals[i].end < start
      invariant forall i :: high <= i < |intervals| ==> intervals[i].end >= start
    {
      var middle := (low + high) / 2;
      if intervals[middle].end >= start { high := middle; } else { low := middle + 1; }
    }
    r := low < |intervals| && intervals[low].start <= end;
    if r {
      var line := if intervals[low].start >= start then intervals[low].start else start;
      assert start <= line <= end && Holds(intervals, line);
    }
  }

  lemma {:induction false} SeparatedFar(s: seq<Interval>)
    requires Separated(s)
    ensures forall i, j :: 0 <= i < j < |s| ==> s[i].end < s[j].start
    decreases |s|
  {
    if |s| > 1 {
      var t := s[..|s| - 1];
      SeparatedFar(t);
      assert forall i, j :: 0 <= i < j < |t| ==> t[i].end < t[j].start;
      assert s[|s| - 2].end + 1 < s[|s| - 1].start;
      assert forall i :: 0 <= i < |t| ==> s[i] == t[i];
    }
  }
}
