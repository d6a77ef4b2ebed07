/**
 Millisecond intervals as the status report handles them: coverage counted
 directly on raw segments, and the fast form over merged intervals with a
 bisect that starts from a carried hint.
 */
module Intervals {

  // (start_ms, end_ms), half open for coverage.
  type Interval = (int, int)

  // ---- meaning ----

  // Millisecond t lies in some segment.
  ghost predicate Covers(segs: seq<Interval>, t: int) {
    exists i | 0 <= i < |segs| :: segs[i].0 <= t < segs[i].1
  }

  // Millisecond t lies in, or at the very end of, some positive-length segment.
  ghost predicate Reaches(segs: seq<Interval>, t: int) {
    exists i | 0 <= i < |segs| :: segs[i].0 <= t <= segs[i].1 && segs[i].0 < segs[i].1
  }

  // The number of covered milliseconds in [from, upto).
  ghost function CoveredCount(segs: seq<Interval>, from: int, upto: int): nat
    decreases upto - from
  {
    if upto <= from then 0
    else CoveredCount(segs, from, upto - 1) + if Covers(segs, upto - 1) then 1 else 0
  }

  // Some positive-length segment starts before `upto` and ends at or after `from`.
  ghost predicate Touches(segs: seq<Interval>, from: int, upto: int) {
    exists i | 0 <= i < |segs| :: segs[i].0 < segs[i].1 && segs[i].0 < upto && segs[i].1 >= from
  }

  lemma TouchesIsReaches(segs: seq<Interval>, from: int, upto: int)
    requires from < upto
    ensures Touches(segs, from, upto) <==> exists t | from <= t < upto :: Reaches(segs, t)
  {
    if Touches(segs, from, upto) {
      var i :| 0 <= i < |segs| && segs[i].0 < segs[i].1 && segs[i].0 < upto && segs[i].1 >= from;
      assert Reaches(segs, if segs[i].0 < from then from else segs[i].0);
    }
  }

  // ---- counting ----

  lemma {:induction false} CountCongruent(a: seq<Interval>, b: seq<Interval>, from: int, upto: int)
    requires forall t | from <= t < upto :: Covers(a, t) <==> Covers(b, t)
    ensures CoveredCount(a, from, upto) == CoveredCount(b, from, upto)
    decreases upto - from
  {
    if from < upto { CountCongruent(a, b, from, upto - 1); }
  }

  // Adding an interval that overlaps nothing adds the part of it inside the window.
  lemma {:induction false} CountDisjoint(s: seq<Interval>, x: Interval, from: int, upto: int)
    requires forall t | x.0 <= t < x.1 :: !Covers(s, t)
    ensures CoveredCount(s + [x], from, upto) == CoveredCount(s, from, upto) + Overlap(x, from, upto)
    decreases upto - from
  {
    if from < upto {
      CountDisjoint(s, x, from, upto - 1);
      CoversSnoc(s, x, upto - 1);
    }
  }

  // How much of an interval lies inside a window.
  function Overlap(x: Interval, from: int, upto: int): nat {
    var lo, hi := if from > x.0 then from else x.0, if upto < x.1 then upto else x.1;
    if hi > lo then hi - lo else 0
  }

  lemma {:induction false} CountNone(s: seq<Interval>, from: int, upto: int)
    requires forall t | from <= t < upto :: !Covers(s, t)
    ensures CoveredCount(s, from, upto) == 0
    decreases upto - from
  {
    if from < upto { CountNone(s, from, upto - 1); }
  }

  // ---- sorting (Python's `sorted` on pairs) ----

  predicate PairLeq(a: Interval, b: Interval) {
    a.0 < b.0 || (a.0 == b.0 && a.1 <= b.1)
  }

  ghost predicate Sorted(s: seq<Interval>) {
    forall i, j | 0 <= i < j < |s| :: PairLeq(s[i], s[j])
  }

  function Insert(x: Interval, s: seq<Interval>): seq<Interval> {
    if s == [] then [x]
    else if PairLeq(x, s[0]) then [x] + s
    else [s[0]] + Insert(x, s[1..])
  }

  lemma {:induction false} InsertKeepsElements(x: Interval, s: seq<Interval>)
    ensures multiset(Insert(x, s)) == multiset(s) + multiset{x}
  {
    if s != [] {
      InsertKeepsElements(x, s[1..]);
      assert s == [s[0]] + s[1..];
    }
  }

  lemma {:induction false} InsertKeepsSorted(x: Interval, s: seq<Interval>)
    requires Sorted(s)
    ensures Sorted(Insert(x, s))
  {
    if s != [] && !PairLeq(x, s[0]) {
      var rest := Insert(x, s[1..]);
      InsertKeepsSorted(x, s[1..]);
      InsertKeepsElements(x, s[1..]);
      forall j | 0 <= j < |rest| ensures PairLeq(s[0], rest[j]) {
        assert rest[j] in multiset(rest);
        assert rest[j] == x || rest[j] in s[1..];
      }
    }
  }

  function SortPairs(s: seq<Interval>): (r: seq<Interval>)
    ensures Sorted(r) && multiset(r) == multiset(s)
  {
    if s == [] then []
    else
      var rest := SortPairs(s[..|s| - 1]);
      InsertKeepsSorted(s[|s| - 1], rest);
      InsertKeepsElements(s[|s| - 1], rest);
      assert s == s[..|s| - 1] + [s[|s| - 1]];
      Insert(s[|s| - 1], rest)
  }

  lemma SameElementsSameCover(a: seq<Interval>, b: seq<Interval>)
    requires multiset(a) == multiset(b)
    ensures forall t :: Covers(a, t) <==> Covers(b, t)
    ensures forall t :: Reaches(a, t) <==> Reaches(b, t)
  {
    forall x ensures x in a <==> x in b {
      assert x in a <==> x in multiset(a);
      assert x in b <==> x in multiset(b);
    }
    forall t
      ensures Covers(a, t) <==> Covers(b, t)
      ensures Reaches(a, t) <==> Reaches(b, t)
    {
      SubsetCovers(a, b, t);
      SubsetCovers(b, a, t);
    }
  }

  lemma SubsetCovers(a: seq<Interval>, b: seq<Interval>, t: int)
    requires forall x | x in a :: x in b
    ensures Covers(a, t) ==> Covers(b, t)
    ensures Reaches(a, t) ==> Reaches(b, t)
  {
    if Covers(a, t) {
      var i :| 0 <= i < |a| && a[i].0 <= t < a[i].1;
      assert a[i] in b;
    }
    if Reaches(a, t) {
      var i :| 0 <= i < |a| && a[i].0 <= t <= a[i].1 && a[i].0 < a[i].1;
      assert a[i] in b;
    }
  }

  lemma CoversSnoc(s: seq<Interval>, x: Interval, t: int)
    ensures Covers(s + [x], t) <==> Covers(s, t) || x.0 <= t < x.1
    ensures Reaches(s + [x], t) <==> Reaches(s, t) || (x.0 <= t <= x.1 && x.0 < x.1)
  {
    SubsetCovers(s, s + [x], t);
    var r := s + [x];
    assert r[|s|] == x;
    if Covers(r, t) && !(x.0 <= t < x.1) {
      var i :| 0 <= i < |r| && r[i].0 <= t < r[i].1;
      assert i < |s| && s[i] == r[i];
    }
    if Reaches(r, t) && !(x.0 <= t <= x.1 && x.0 < x.1) {
      var i :| 0 <= i < |r| && r[i].0 <= t <= r[i].1 && r[i].0 < r[i].1;
      assert i < |s| && s[i] == r[i];
    }
  }

  // ---- merging ----

  // Positive lengths, ascending, and strictly apart.
  ghost predicate Merged(m: seq<Interval>) {
    && (forall i | 0 <= i < |m| :: m[i].0 < m[i].1)
    && (forall i, j | 0 <= i < j < |m| :: m[i].1 < m[j].0)
  }

  ghost predicate SameCover(a: seq<Interval>, b: seq<Interval>) {
    && (forall t :: Covers(a, t) <==> Covers(b, t))
    && (forall t :: Reaches(a, t) <==> Reaches(b, t))
  }

  // One step of the merge loop: drop an empty interval, extend the last one, or open a new one.
  function MergeStep(merged: seq<Interval>, x: Interval): seq<Interval> {
    if x.1 <= x.0 then merged
    else if merged == [] then [x]
    else
      var last := merged[|merged| - 1];
      if x.0 <= last.1
      then merged[..|merged| - 1] + [(last.0, if last.1 > x.1 then last.1 else x.1)]
      else merged + [x]
  }

  function MergeSorted(s: seq<Interval>): seq<Interval> {
    if s == [] then [] else MergeStep(MergeSorted(s[..|s| - 1]), s[|s| - 1])
  }

  function MergeIntervals(segs: seq<Interval>): seq<Interval> {
    MergeSorted(SortPairs(segs))
  }

  lemma MergeStepKeeps(merged: seq<Interval>, x: Interval)
    requires Merged(merged) && forall i | 0 <= i < |merged| :: merged[i].0 <= x.0
    ensures Merged(MergeStep(merged, x)) && SameCover(MergeStep(merged, x), merged + [x])
    ensures forall i | 0 <= i < |MergeStep(merged, x)| :: MergeStep(merged, x)[i].0 <= x.0
  {
    forall t
      ensures Covers(MergeStep(merged, x), t) <==> Covers(merged + [x], t)
      ensures Reaches(MergeStep(merged, x), t) <==> Reaches(merged + [x], t)
    {
      CoversSnoc(merged, x, t);
      if merged != [] {
        var init, last := merged[..|merged| - 1], merged[|merged| - 1];
        assert merged == init + [last];
        CoversSnoc(init, last, t);
        CoversSnoc(init, (last.0, if last.1 > x.1 then last.1 else x.1), t);
      } else {
        assert merged + [x] == [x];
      }
    }
  }

  lemma {:induction false} MergeSortedMeaning(s: seq<Interval>)
    requires Sorted(s)
    ensures Merged(MergeSorted(s)) && SameCover(MergeSorted(s), s)
    ensures forall i, j | 0 <= i < |MergeSorted(s)| && |s| - 1 <= j < |s| :: MergeSorted(s)[i].0 <= s[j].0
  {
    if s != [] {
      var init, x := s[..|s| - 1], s[|s| - 1];
      MergeSortedMeaning(init);
      var m := MergeSorted(init);
      forall i | 0 <= i < |m| ensures m[i].0 <= x.0 {
        assert init != [];
        assert PairLeq(init[|init| - 1], x);
        assert m[i].0 <= init[|init| - 1].0;
      }
      MergeStepKeeps(m, x);
      assert s == init + [x];
      forall t
        ensures Covers(m + [x], t) <==> Covers(s, t)
        ensures Reaches(m + [x], t) <==> Reaches(s, t)
      {
        CoversSnoc(m, x, t);
        CoversSnoc(init, x, t);
      }
    }
  }

  // Merging keeps exactly the covered milliseconds and the reach of every positive-length segment.
  lemma MergeMeaning(segs: seq<Interval>)
    ensures Merged(MergeIntervals(segs)) && SameCover(MergeIntervals(segs), segs)
  {
    MergeSortedMeaning(SortPairs(segs));
    SameElementsSameCover(SortPairs(segs), segs);
  }

  // ---- merging per partition, then across partitions ----

  function Concat(parts: seq<seq<Interval>>): seq<Interval> {
    if parts == [] then [] else Concat(parts[..|parts| - 1]) + parts[|parts| - 1]
  }

  function MergeEach(parts: seq<seq<Interval>>): seq<seq<Interval>> {
    if parts == [] then [] else MergeEach(parts[..|parts| - 1]) + [MergeIntervals(parts[|parts| - 1])]
  }

  lemma CoversConcat(a: seq<Interval>, b: seq<Interval>, t: int)
    ensures Covers(a + b, t) <==> Covers(a, t) || Covers(b, t)
    ensures Reaches(a + b, t) <==> Reaches(a, t) || Reaches(b, t)
    decreases |b|
  {
    if b == [] {
      assert a + b == a;
    } else {
      var init, x := b[..|b| - 1], b[|b| - 1];
      CoversConcat(a, init, t);
      CoversSnoc(a + init, x, t);
      CoversSnoc(init, x, t);
      assert a + b == (a + init) + [x] && b == init + [x];
    }
  }

  lemma {:induction false} MergeEachKeepsCover(parts: seq<seq<Interval>>)
    ensures SameCover(Concat(MergeEach(parts)), Concat(parts))
  {
    if parts != [] {
      var init, last := parts[..|parts| - 1], parts[|parts| - 1];
      MergeEachKeepsCover(init);
      MergeMeaning(last);
      assert MergeEach(parts)[..|MergeEach(parts)| - 1] == MergeEach(init);
      forall t
        ensures Covers(Concat(MergeEach(parts)), t) <==> Covers(Concat(parts), t)
        ensures Reaches(Concat(MergeEach(parts)), t) <==> Reaches(Concat(parts), t)
      {
        CoversConcat(Concat(MergeEach(init)), MergeIntervals(last), t);
        CoversConcat(Concat(init), last, t);
      }
    }
  }

  // Two-level merging touches a bucket exactly when some positive-length raw segment does.
  lemma TwoLevelMergeMeaning(parts: seq<seq<Interval>>)
    ensures var m := MergeIntervals(Concat(MergeEach(parts)));
            Merged(m) && SameCover(m, Concat(parts))
  {
    MergeEachKeepsCover(parts);
    MergeMeaning(Concat(MergeEach(parts)));
  }

  lemma SameCoverSameTouch(a: seq<Interval>, b: seq<Interval>, from: int, upto: int)
    requires SameCover(a, b) && from < upto
    ensures Touches(a, from, upto) <==> Touches(b, from, upto)
    ensures CoveredCount(a, from, upto) == CoveredCount(b, from, upto)
  {
    TouchesIsReaches(a, from, upto);
    TouchesIsReaches(b, from, upto);
    CountCongruent(a, b, from, upto);
  }

  // What the report computes on merged lists is what the raw lists say: covered milliseconds,
  // and gaps touched even when they were merged per partition first.
  lemma FastFormsAgree(segs: seq<Interval>, gapTables: seq<seq<Interval>>, start: int, end: int)
    requires start < end
    ensures CoveredCount(MergeIntervals(segs), start, end) == CoveredCount(segs, start, end)
    ensures Touches(MergeIntervals(Concat(MergeEach(gapTables))), start, end)
       <==> Touches(Concat(gapTables), start, end)
  {
    MergeMeaning(segs);
    SameCoverSameTouch(MergeIntervals(segs), segs, start, end);
    TwoLevelMergeMeaning(gapTables);
    SameCoverSameTouch(MergeIntervals(Concat(MergeEach(gapTables))), Concat(gapTables), start, end);
  }

  method MergeLoop(segs: seq<Interval>) returns (merged: seq<Interval>)
    ensures merged == MergeIntervals(segs)
  {
    merged := MergeOrdered(SortPairs(segs));
  }

  lemma MergeSortedSnoc(s: seq<Interval>, x: Interval)
    ensures MergeSorted(s + [x]) == MergeStep(MergeSorted(s), x)
  {
    assert (s + [x])[..|s|] == s;
  }

  method MergeOrdered(ordered: seq<Interval>) returns (merged: seq<Interval>)
    ensures merged == MergeSorted(ordered)
  {
    merged := [];
    for k := 0 to |ordered|
      invariant merged == MergeSorted(ordered[..k])
    {
      var (s, e) := ordered[k];
      MergeSortedSnoc(ordered[..k], ordered[k]);
      assert ordered[..k + 1] == ordered[..k] + [ordered[k]];
      if e <= s {
        continue;
      }
      if merged == [] {
        merged := [(s, e)];
      } else if s <= merged[|merged| - 1].1 {
        var last := merged[|merged| - 1];
        merged := merged[..|merged| - 1] + [(last.0, if last.1 > e then last.1 else e)];
      } else {
        merged := merged + [(s, e)];
      }
    }
    assert ordered[..|ordered|] == ordered;
  }

  // ---- the simple count ----

  function Clip(segs: seq<Interval>, from: int, upto: int): seq<Interval> {
    if segs == [] then []
    else
      var x := segs[|segs| - 1];
      var rest := Clip(segs[..|segs| - 1], from, upto);
      if x.1 > from && x.0 < upto
      then rest + [(if from > x.0 then from else x.0, if upto < x.1 then upto else x.1)]
      else rest
  }

  lemma {:induction false} ClipMeaning(segs: seq<Interval>, from: int, upto: int, t: int)
    ensures Covers(Clip(segs, from, upto), t) <==> from <= t < upto && Covers(segs, t)
  {
    if segs != [] {
      var init, x := segs[..|segs| - 1], segs[|segs| - 1];
      ClipMeaning(init, from, upto, t);
      assert segs == init + [x];
      CoversSnoc(init, x, t);
      CoversSnoc(Clip(init, from, upto), (if from > x.0 then from else x.0, if upto < x.1 then upto else x.1), t);
    }
  }

  lemma {:induction false} ClipStaysInside(segs: seq<Interval>, from: int, upto: int)
    ensures forall x | x in Clip(segs, from, upto) :: from <= x.0 && x.1 <= upto
  {
    if segs != [] { ClipStaysInside(segs[..|segs| - 1], from, upto); }
  }

  // The sweep's registers: what is counted so far and the interval under the cursor.
  datatype Sweep = Sweep(covered: int, open: bool, cursorStart: int, cursorEnd: int)

  function SweepOne(w: Sweep, x: Interval): Sweep {
    if x.1 <= x.0 then w
    else if !w.open then Sweep(w.covered, true, x.0, x.1)
    else if x.0 <= w.cursorEnd then w.(cursorEnd := if w.cursorEnd > x.1 then w.cursorEnd else x.1)
    else Sweep(w.covered + (w.cursorEnd - w.cursorStart), true, x.0, x.1)
  }

  function SweepAll(clipped: seq<Interval>, from: int): Sweep {
    if clipped == [] then Sweep(0, false, from, from)
    else SweepOne(SweepAll(clipped[..|clipped| - 1], from), clipped[|clipped| - 1])
  }

  ghost function Swept(w: Sweep): int {
    w.covered + (w.cursorEnd - w.cursorStart)
  }

  ghost predicate SweepFits(w: Sweep, s: seq<Interval>, from: int, upto: int) {
    && Swept(w) == CoveredCount(s, from, upto)
    && (!w.open ==> w.covered == 0 && w.cursorStart == w.cursorEnd == from)
    && CursorIs(s, w.cursorStart, w.cursorEnd)
  }

  lemma SweepOneFits(w: Sweep, s: seq<Interval>, x: Interval, from: int, upto: int)
    requires SweepFits(w, s, from, upto) && from <= x.0 && x.1 <= upto && w.cursorStart <= x.0
    ensures SweepFits(SweepOne(w, x), s + [x], from, upto)
  {
    SweepStep(s, x, from, upto, w.cursorStart, w.cursorEnd);
  }

  lemma {:induction false} SweepMeaning(clipped: seq<Interval>, from: int, upto: int)
    requires Sorted(clipped) && forall i | 0 <= i < |clipped| :: from <= clipped[i].0 && clipped[i].1 <= upto
    ensures SweepFits(SweepAll(clipped, from), clipped, from, upto)
    ensures clipped != [] ==> SweepAll(clipped, from).cursorStart <= clipped[|clipped| - 1].0
  {
    if clipped == [] {
      CountNone(clipped, from, upto);
    } else {
      var init, x := clipped[..|clipped| - 1], clipped[|clipped| - 1];
      SweepMeaning(init, from, upto);
      assert init != [] ==> PairLeq(init[|init| - 1], x);
      SweepOneFits(SweepAll(init, from), init, x, from, upto);
      assert clipped == init + [x];
    }
  }

  // The counted milliseconds are the covered ones.
  lemma SweepCounts(segs: seq<Interval>, from: int, upto: int)
    ensures Swept(SweepAll(SortPairs(Clip(segs, from, upto)), from)) == CoveredCount(segs, from, upto)
    ensures var w := SweepAll(SortPairs(Clip(segs, from, upto)), from); !w.open ==> Swept(w) == w.covered
  {
    var clipped := SortPairs(Clip(segs, from, upto));
    SortedClip(segs, from, upto, clipped);
    SweepMeaning(clipped, from, upto);
    CountCongruent(clipped, segs, from, upto);
  }

  // The sorted sweep that counts the covered milliseconds of a window.
  method CoveredMs(segs: seq<Interval>, from: int, upto: int) returns (covered: int)
    ensures covered == CoveredCount(segs, from, upto)
  {
    covered := SweepOrdered(SortPairs(Clip(segs, from, upto)), from);
    SweepCounts(segs, from, upto);
  }

  lemma SweepAllSnoc(s: seq<Interval>, x: Interval, from: int)
    ensures SweepAll(s + [x], from) == SweepOne(SweepAll(s, from), x)
  {
    assert (s + [x])[..|s|] == s;
  }

  method SweepOrdered(clipped: seq<Interval>, from: int) returns (covered: int)
    ensures var w := SweepAll(clipped, from); covered == if w.open then Swept(w) else w.covered
  {
    covered := 0;
    var open := false;
    var cursorStart, cursorEnd := from, from;
    for k := 0 to |clipped|
      invariant SweepAll(clipped[..k], from) == Sweep(covered, open, cursorStart, cursorEnd)
    {
      var (start, end) := clipped[k];
      SweepAllSnoc(clipped[..k], clipped[k], from);
      assert clipped[..k + 1] == clipped[..k] + [clipped[k]];
      if end <= start {
        continue;
      }
      if !open {
        open, cursorStart, cursorEnd := true, start, end;
      } else if start <= cursorEnd {
        cursorEnd := if cursorEnd > end then cursorEnd else end;
      } else {
        covered := covered + (cursorEnd - cursorStart);
        cursorStart, cursorEnd := start, end;
      }
    }
    assert clipped[..|clipped|] == clipped;
    if open {
      covered := covered + (cursorEnd - cursorStart);
    }
  }

  // The cursor interval is covered and nothing after it is.
  ghost predicate CursorIs(s: seq<Interval>, cursorStart: int, cursorEnd: int) {
    && (forall t | cursorStart <= t < cursorEnd :: Covers(s, t))
    && (forall t | cursorEnd <= t :: !Covers(s, t))
  }

  // The next interval in start order adds exactly what reaches past the cursor.
  lemma SweepStep(s: seq<Interval>, x: Interval, from: int, upto: int, cursorStart: int, cursorEnd: int)
    requires from <= x.0 && x.1 <= upto && cursorStart <= x.0 && CursorIs(s, cursorStart, cursorEnd)
    ensures CoveredCount(s + [x], from, upto)
         == CoveredCount(s, from, upto) + Overlap(x, cursorEnd, upto)
    ensures x.1 <= x.0 ==> CursorIs(s + [x], cursorStart, cursorEnd)
    ensures x.0 <= cursorEnd ==> CursorIs(s + [x], cursorStart, if cursorEnd > x.1 then cursorEnd else x.1)
    ensures x.0 < x.1 && x.1 >= cursorEnd ==> CursorIs(s + [x], x.0, x.1)
  {
    var tail := (if cursorEnd > x.0 then cursorEnd else x.0, x.1);
    CountDisjoint(s, tail, from, upto);
    forall t ensures Covers(s + [x], t) <==> Covers(s, t) || x.0 <= t < x.1 { CoversSnoc(s, x, t); }
    forall t | from <= t < upto ensures Covers(s + [x], t) <==> Covers(s + [tail], t) { CoversSnoc(s, tail, t); }
    CountCongruent(s + [x], s + [tail], from, upto);
  }

  lemma SortedClip(segs: seq<Interval>, from: int, upto: int, clipped: seq<Interval>)
    requires clipped == SortPairs(Clip(segs, from, upto))
    ensures forall i | 0 <= i < |clipped| :: from <= clipped[i].0 && clipped[i].1 <= upto
    ensures forall t :: Covers(clipped, t) <==> from <= t < upto && Covers(segs, t)
  {
    ClipStaysInside(segs, from, upto);
    forall i | 0 <= i < |clipped| ensures from <= clipped[i].0 && clipped[i].1 <= upto {
      assert clipped[i] in multiset(clipped);
    }
    SameElementsSameCover(clipped, Clip(segs, from, upto));
    forall t ensures Covers(clipped, t) <==> from <= t < upto && Covers(segs, t) {
      ClipMeaning(segs, from, upto, t);
    }
  }

  // ---- the fast count with carried hints ----

  const FAR: int := 1_000_000_000_000_000_000

  // Everything before the hint starts, and so ends, before any bucket still to come.
  ghost predicate HintFits(m: seq<Interval>, start: int, hint: int) {
    0 <= hint && (hint > 0 ==> hint < |m| && m[hint].0 <= start)
  }

  // Python's bisect_right on pairs.
  method BisectRight(m: seq<Interval>, key: Interval, lo: nat) returns (r: nat)
    requires Sorted(m) && lo <= |m|
    ensures lo <= r <= |m|
    ensures forall i | lo <= i < r :: PairLeq(m[i], key)
    ensures forall i | r <= i < |m| :: !PairLeq(m[i], key)
  {
    r := lo;
    var hi := |m|;
    while r < hi
      invariant lo <= r <= hi <= |m|
      invariant forall i | lo <= i < r :: PairLeq(m[i], key)
      invariant forall i | hi <= i < |m| :: !PairLeq(m[i], key)
    {
      var mid := (r + hi) / 2;
      if !PairLeq(m[mid], key) {
        hi := mid;
      } else {
        r := mid + 1;
      }
    }
  }

  lemma MergedIsSorted(m: seq<Interval>)
    requires Merged(m)
    ensures Sorted(m)
  {
    forall i, j | 0 <= i < j < |m| ensures PairLeq(m[i], m[j]) {
      assert m[i].1 < m[j].0;
    }
  }

  // The last interval that starts at or before `start`, searched from the hint.
  method Seek(m: seq<Interval>, start: int, hint: nat) returns (idx: nat)
    requires Merged(m) && m != [] && HintFits(m, start, hint)
    ensures HintFits(m, start, idx) && idx < |m|
    ensures forall i | 0 <= i < idx :: m[i].1 < start
  {
    MergedIsSorted(m);
    var r := BisectRight(m, (start, FAR), hint);
    idx := if r == 0 then 0 else r - 1;
    forall i | 0 <= i < idx ensures m[i].1 < start {
      assert m[idx].0 <= start && m[i].1 < m[idx].0;
    }
  }

  method FastCovered(m: seq<Interval>, start: int, end: int, hint: nat) returns (covered: int, idx: nat)
    requires Merged(m) && HintFits(m, start, hint)
    ensures covered == CoveredCount(m, start, end)
    ensures forall later | start <= later :: HintFits(m, later, idx)
  {
    if m == [] || end <= start {
      CountNone(m, start, end);
      return 0, hint;
    }
    idx := Seek(m, start, hint);
    CountNone(m[..idx], start, end);
    covered := 0;
    var k := idx;
    while k < |m|
      invariant idx <= k <= |m|
      invariant covered == CoveredCount(m[..k], start, end)
    {
      var (s, e) := m[k];
      if s >= end {
        break;
      }
      assert m[..k + 1] == m[..k] + [m[k]];
      CountDisjoint(m[..k], m[k], start, end);
      var overlapStart, overlapEnd := if start > s then start else s, if end < e then end else e;
      if overlapEnd > overlapStart {
        covered := covered + (overlapEnd - overlapStart);
      }
      k := k + 1;
    }
    RestIsBeyond(m, k, start, end);
  }

  // Intervals that start at or after the window's end do not count.
  lemma RestIsBeyond(m: seq<Interval>, k: nat, start: int, end: int)
    requires Merged(m) && k <= |m| && (k < |m| ==> m[k].0 >= end)
    ensures CoveredCount(m[..k], start, end) == CoveredCount(m, start, end)
  {
    forall t | start <= t < end ensures Covers(m[..k], t) <==> Covers(m, t) {
      SubsetCovers(m[..k], m, t);
      if Covers(m, t) {
        var i :| 0 <= i < |m| && m[i].0 <= t < m[i].1;
        assert i < k && m[..k][i] == m[i];
      }
    }
    CountCongruent(m[..k], m, start, end);
  }

  method FastHasGap(m: seq<Interval>, start: int, end: int, hint: nat) returns (found: bool, idx: nat)
    requires Merged(m) && HintFits(m, start, hint)
    ensures found <==> start < end && Touches(m, start, end)
    ensures forall later | start <= later :: HintFits(m, later, idx)
  {
    if m == [] || end <= start {
      return false, hint;
    }
    idx := Seek(m, start, hint);
    var k := idx;
    while k < |m|
      invariant idx <= k <= |m|
      invariant forall i | 0 <= i < k :: m[i].1 < start
    {
      var (s, e) := m[k];
      if s >= end {
        assert forall i | k <= i < |m| :: m[i].0 >= end;
        return false, idx;
      }
      if e >= start {
        return true, idx;
      }
      k := k + 1;
    }
    return false, idx;
  }
}
