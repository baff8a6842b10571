/** Interval algebra on minutes of a day (interval-math.util.ts). */
module Intervals {
  import opened Arithmetic
  import opened Sorting
  import opened LocalTime

  datatype Range = Range(start: int, end: int)

  ghost predicate Valid(ranges: seq<Range>) {
    forall i :: 0 <= i < |ranges| ==> ranges[i].start < ranges[i].end
  }

  predicate Contains(r: Range, m: int) {
    r.start <= m < r.end
  }

  /** The minutes a list of ranges stands for. */
  ghost predicate Covers(ranges: seq<Range>, m: int) {
    exists r :: r in ranges && Contains(r, m)
  }

  /** Sorted, and no two ranges touching. */
  ghost predicate Normal(ranges: seq<Range>) {
    Valid(ranges) && forall i, j :: 0 <= i < j < |ranges| ==> ranges[i].end < ranges[j].start
  }

  ghost predicate SameMinutes(a: seq<Range>, b: seq<Range>) {
    forall m :: Covers(a, m) <==> Covers(b, m)
  }

  // ---------- The normal form is unique ----------

  lemma NormalHead(a: seq<Range>, m: int)
    requires Normal(a) && a != []
    ensures Covers(a, a[0].start) && !Covers(a, a[0].end)
    ensures Covers(a, m) ==> a[0].start <= m
    ensures Covers(a, m) <==> Contains(a[0], m) || Covers(a[1..], m)
    ensures Covers(a[1..], m) ==> m > a[0].end
  {
    assert a[0] in a && Contains(a[0], a[0].start);
    forall r | r in a ensures r == a[0] || (r in a[1..] && r.start > a[0].end) {
      var i :| 0 <= i < |a| && a[i] == r;
      if i > 0 { assert a[1..][i - 1] == r; }
    }
  }

  /** Two normal lists of the same minutes are the same list. */
  lemma {:induction false} NormalFormUnique(a: seq<Range>, b: seq<Range>)
    requires Normal(a) && Normal(b) && SameMinutes(a, b)
    ensures a == b
  {
    if a == [] {
      if b != [] { NormalHead(b, b[0].start); assert false; }
    } else if b == [] {
      NormalHead(a, a[0].start);
      assert false;
    } else {
      SameHead(a, b);
      SameHead(b, a);
      forall m ensures Covers(a[1..], m) <==> Covers(b[1..], m) {
        NormalHead(a, m);
        NormalHead(b, m);
      }
      NormalFormUnique(a[1..], b[1..]);
      assert a == [a[0]] + a[1..] && b == [b[0]] + b[1..];
    }
  }

  lemma SameHead(a: seq<Range>, b: seq<Range>)
    requires Normal(a) && Normal(b) && SameMinutes(a, b) && a != [] && b != []
    ensures a[0].start >= b[0].start
    ensures a[0].start == b[0].start ==> a[0].end >= b[0].end
  {
    NormalHead(a, a[0].start);
    NormalHead(b, a[0].start);
    NormalHead(a, a[0].end);
    NormalHead(b, a[0].end);
  }

  // ---------- Merging ----------

  function ByStart(): (Range, Range) -> bool {
    (a: Range, b: Range) => a.start <= b.start
  }

  lemma SameElementsSameMinutes(a: seq<Range>, b: seq<Range>)
    requires multiset(a) == multiset(b)
    ensures SameMinutes(a, b)
    ensures Valid(a) ==> Valid(b)
  {
    forall r ensures r in a <==> r in b {
      assert r in a <==> r in multiset(a);
      assert r in b <==> r in multiset(b);
    }
    if Valid(a) {
      forall i | 0 <= i < |b| ensures b[i].start < b[i].end { assert b[i] in a; }
    }
  }

  lemma CoversAppend(a: seq<Range>, r: Range)
    ensures forall m :: Covers(a + [r], m) <==> Covers(a, m) || Contains(r, m)
  {
    forall m ensures Covers(a + [r], m) <==> Covers(a, m) || Contains(r, m) {
      assert r in a + [r];
      assert forall x :: x in a + [r] <==> x in a || x == r;
    }
  }

  lemma CoversConcat(a: seq<Range>, b: seq<Range>)
    ensures forall m :: Covers(a + b, m) <==> Covers(a, m) || Covers(b, m)
  {
    assert forall x :: x in a + b <==> x in a || x in b;
  }

  /** Widens the last range or pushes a new one. */
  method PushOrWiden(merged: seq<Range>, r: Range) returns (next: seq<Range>)
    requires Normal(merged) && r.start < r.end
    requires forall j :: 0 <= j < |merged| ==> merged[j].start <= r.start
    ensures Normal(next)
    ensures forall m :: Covers(next, m) <==> Covers(merged, m) || Contains(r, m)
    ensures forall j :: 0 <= j < |next| ==> next[j].start <= r.start
  {
    if |merged| > 0 && r.start <= merged[|merged| - 1].end {
      var front, last := merged[..|merged| - 1], merged[|merged| - 1];
      var widened := Range(last.start, Max(last.end, r.end));
      assert merged == front + [last];
      CoversAppend(front, last);
      CoversAppend(front, widened);
      next := front + [widened];
    } else {
      CoversAppend(merged, r);
      next := merged + [r];
    }
  }

  method MergeMinuteRanges(ranges: seq<Range>) returns (merged: seq<Range>)
    requires Valid(ranges)
    ensures Normal(merged) && SameMinutes(merged, ranges)
  {
    var sorted := Sort(ByStart(), ranges);
    SortCorrect(ByStart(), ranges);
    SameElementsSameMinutes(ranges, sorted);
    merged := [];
    for i := 0 to |sorted|
      invariant Normal(merged) && SameMinutes(merged, sorted[..i])
      invariant forall j :: 0 <= j < |merged| && i > 0 ==> merged[j].start <= sorted[i - 1].start
      invariant i == 0 ==> merged == []
    {
      assert sorted[..i + 1] == sorted[..i] + [sorted[i]];
      CoversAppend(sorted[..i], sorted[i]);
      assert i > 0 ==> ByStart()(sorted[i - 1], sorted[i]);
      merged := PushOrWiden(merged, sorted[i]);
    }
    assert sorted[..|sorted|] == sorted;
  }

  // ---------- Intersecting ----------

  method IntersectMinuteRanges(a: seq<Range>, b: seq<Range>) returns (r: seq<Range>)
    ensures Normal(r)
    ensures forall m :: Covers(r, m) <==> Covers(a, m) && Covers(b, m)
  {
    var result: seq<Range> := [];
    for i := 0 to |a|
      invariant Valid(result)
      invariant forall m :: Covers(result, m) <==> Covers(a[..i], m) && Covers(b, m)
    {
      assert a[..i + 1] == a[..i] + [a[i]];
      CoversAppend(a[..i], a[i]);
      var overlaps := OverlapsWith(a[i], b);
      CoversConcat(result, overlaps);
      result := result + overlaps;
    }
    assert a[..|a|] == a;
    r := MergeMinuteRanges(result);
  }

  method OverlapsWith(x: Range, b: seq<Range>) returns (result: seq<Range>)
    ensures Valid(result)
    ensures forall m :: Covers(result, m) <==> Contains(x, m) && Covers(b, m)
  {
    result := [];
    for j := 0 to |b|
      invariant Valid(result)
      invariant forall m :: Covers(result, m) <==> Contains(x, m) && Covers(b[..j], m)
    {
      assert b[..j + 1] == b[..j] + [b[j]];
      CoversAppend(b[..j], b[j]);
      var start, end := Max(x.start, b[j].start), Min(x.end, b[j].end);
      CoversAppend(result, Range(start, end));
      if start < end {
        result := result + [Range(start, end)];
      }
    }
    assert b[..|b|] == b;
  }

  // ---------- Subtracting ----------

  /** What is left of one range: nothing, one piece or two. */
  function Pieces(r: Range, removed: Range): seq<Range> {
    if removed.end <= r.start || removed.start >= r.end then [r]
    else
      (if removed.start > r.start then [Range(r.start, removed.start)] else [])
      + (if removed.end < r.end then [Range(removed.end, r.end)] else [])
  }

  lemma PiecesAreDifference(r: Range, removed: Range)
    requires r.start < r.end && removed.start < removed.end
    ensures Normal(Pieces(r, removed))
    ensures forall p :: p in Pieces(r, removed) ==> r.start <= p.start && p.end <= r.end
    ensures forall m :: Covers(Pieces(r, removed), m) <==> Contains(r, m) && !Contains(removed, m)
  {
    var left := if removed.start > r.start then [Range(r.start, removed.start)] else [];
    var right := if removed.end < r.end then [Range(removed.end, r.end)] else [];
    if removed.end <= r.start || removed.start >= r.end {
      CoversAppend([], r);
      assert [] + [r] == [r];
    } else {
      CoversConcat(left, right);
      CoversAppend([], Range(r.start, removed.start));
      CoversAppend([], Range(removed.end, r.end));
      assert [] + [Range(r.start, removed.start)] == [Range(r.start, removed.start)];
      assert [] + [Range(removed.end, r.end)] == [Range(removed.end, r.end)];
    }
  }

  method RemoveOne(ranges: seq<Range>, removed: Range) returns (next: seq<Range>)
    requires Normal(ranges) && removed.start < removed.end
    ensures Normal(next)
    ensures forall m :: Covers(next, m) <==> Covers(ranges, m) && !Contains(removed, m)
  {
    next := [];
    for i := 0 to |ranges|
      invariant Normal(next)
      invariant forall j, k :: 0 <= j < |next| && i <= k < |ranges| ==> next[j].end < ranges[k].start
      invariant forall m :: Covers(next, m) <==> Covers(ranges[..i], m) && !Contains(removed, m)
    {
      assert ranges[..i + 1] == ranges[..i] + [ranges[i]];
      CoversAppend(ranges[..i], ranges[i]);
      var pieces := Pieces(ranges[i], removed);
      PiecesAreDifference(ranges[i], removed);
      CoversConcat(next, pieces);
      forall k | 0 <= k < |pieces| ensures ranges[i].start <= pieces[k].start && pieces[k].end <= ranges[i].end {
        assert pieces[k] in pieces;
      }
      next := next + pieces;
    }
    assert ranges[..|ranges|] == ranges;
  }

  method SubtractMinuteRanges(base: seq<Range>, remove: seq<Range>) returns (result: seq<Range>)
    requires Valid(base) && Valid(remove)
    ensures Normal(result)
    ensures forall m :: Covers(result, m) <==> Covers(base, m) && !Covers(remove, m)
  {
    result := MergeMinuteRanges(base);
    for i := 0 to |remove|
      invariant Normal(result)
      invariant forall m :: Covers(result, m) <==> Covers(base, m) && !Covers(remove[..i], m)
    {
      assert remove[..i + 1] == remove[..i] + [remove[i]];
      CoversAppend(remove[..i], remove[i]);
      result := RemoveOne(result, remove[i]);
    }
    assert remove[..|remove|] == remove;
  }

  // ---------- "HH:mm" intervals ----------

  datatype LocalInterval = LocalInterval(startLocalTime: string, endLocalTime: string)

  /** Well-formed times with the start before the end. */
  predicate ValidInterval(i: LocalInterval) {
    && IsValidLocalTime(i.startLocalTime) && IsValidLocalTime(i.endLocalTime)
    && CompareLocalTimes(i.startLocalTime, i.endLocalTime) < 0
  }

  ghost predicate ValidIntervals(intervals: seq<LocalInterval>) {
    forall i :: 0 <= i < |intervals| ==> ValidInterval(intervals[i])
  }

  function ToMinuteRange(i: LocalInterval): (r: Range)
    requires ValidInterval(i)
    ensures 0 <= r.start < r.end < MINUTES_PER_DAY
  {
    CompareIsNumeric(i.startLocalTime, i.endLocalTime);
    LocalTimeRoundTrip(i.startLocalTime);
    LocalTimeRoundTrip(i.endLocalTime);
    Range(LocalTimeToMinutes(i.startLocalTime), LocalTimeToMinutes(i.endLocalTime))
  }

  function ToMinuteRanges(intervals: seq<LocalInterval>): (ranges: seq<Range>)
    requires ValidIntervals(intervals)
    ensures Valid(ranges) && WithinDay(ranges)
  {
    seq(|intervals|, i requires 0 <= i < |intervals| && ValidInterval(intervals[i]) => ToMinuteRange(intervals[i]))
  }

  function FromMinuteRanges(ranges: seq<Range>): seq<LocalInterval>
    requires forall i :: 0 <= i < |ranges| ==> 0 <= ranges[i].start && 0 <= ranges[i].end
  {
    seq(|ranges|, i requires 0 <= i < |ranges| =>
      LocalInterval(MinutesToLocalTime(ranges[i].start), MinutesToLocalTime(ranges[i].end)))
  }

  ghost predicate WithinDay(ranges: seq<Range>) {
    forall i :: 0 <= i < |ranges| ==> 0 <= ranges[i].start && ranges[i].end < MINUTES_PER_DAY
  }

  /** Printing valid minute ranges of one day and reading them back is the identity. */
  lemma RangesRoundTrip(ranges: seq<Range>)
    requires Valid(ranges) && WithinDay(ranges)
    ensures ValidIntervals(FromMinuteRanges(ranges))
    ensures ToMinuteRanges(FromMinuteRanges(ranges)) == ranges
  {
    var intervals := FromMinuteRanges(ranges);
    forall i | 0 <= i < |ranges|
      ensures ValidInterval(intervals[i])
      ensures LocalTimeToMinutes(intervals[i].startLocalTime) == ranges[i].start
      ensures LocalTimeToMinutes(intervals[i].endLocalTime) == ranges[i].end
    {
      MinutesRoundTrip(ranges[i].start);
      MinutesRoundTrip(ranges[i].end);
      CompareIsNumeric(intervals[i].startLocalTime, intervals[i].endLocalTime);
    }
  }

  /** Minutes of ranges within the day stay within it. */
  lemma NormalWithinDay(r: seq<Range>, a: seq<Range>)
    requires Normal(r) && WithinDay(a) && Valid(a)
    requires forall m :: Covers(r, m) ==> Covers(a, m)
    ensures WithinDay(r)
  {
    forall i | 0 <= i < |r| ensures 0 <= r[i].start && r[i].end < MINUTES_PER_DAY {
      assert r[i] in r && Contains(r[i], r[i].start) && Contains(r[i], r[i].end - 1);
      assert Covers(a, r[i].start) && Covers(a, r[i].end - 1);
    }
  }

  /** The minutes a list of "HH:mm" intervals stands for. */
  ghost predicate OpenAt(intervals: seq<LocalInterval>, m: int)
    requires ValidIntervals(intervals)
  {
    Covers(ToMinuteRanges(intervals), m)
  }

  ghost predicate NormalIntervals(intervals: seq<LocalInterval>) {
    ValidIntervals(intervals) && Normal(ToMinuteRanges(intervals))
  }

  method IntersectLocalIntervals(a: seq<LocalInterval>, b: seq<LocalInterval>) returns (r: seq<LocalInterval>)
    requires ValidIntervals(a) && ValidIntervals(b)
    ensures NormalIntervals(r)
    ensures forall m :: OpenAt(r, m) <==> OpenAt(a, m) && OpenAt(b, m)
  {
    var ranges := IntersectMinuteRanges(ToMinuteRanges(a), ToMinuteRanges(b));
    NormalWithinDay(ranges, ToMinuteRanges(a));
    RangesRoundTrip(ranges);
    r := FromMinuteRanges(ranges);
  }

  method MergeLocalIntervals(a: seq<LocalInterval>, b: seq<LocalInterval>) returns (r: seq<LocalInterval>)
    requires ValidIntervals(a) && ValidIntervals(b)
    ensures NormalIntervals(r)
    ensures forall m :: OpenAt(r, m) <==> OpenAt(a, m) || OpenAt(b, m)
  {
    var both := ToMinuteRanges(a) + ToMinuteRanges(b);
    CoversConcat(ToMinuteRanges(a), ToMinuteRanges(b));
    var ranges := MergeMinuteRanges(both);
    NormalWithinDay(ranges, both);
    RangesRoundTrip(ranges);
    r := FromMinuteRanges(ranges);
  }

  method SubtractLocalIntervals(base: seq<LocalInterval>, remove: seq<LocalInterval>) returns (r: seq<LocalInterval>)
    requires ValidIntervals(base) && ValidIntervals(remove)
    ensures NormalIntervals(r)
    ensures forall m :: OpenAt(r, m) <==> OpenAt(base, m) && !OpenAt(remove, m)
  {
    var ranges := SubtractMinuteRanges(ToMinuteRanges(base), ToMinuteRanges(remove));
    NormalWithinDay(ranges, ToMinuteRanges(base));
    RangesRoundTrip(ranges);
    r := FromMinuteRanges(ranges);
  }
}
