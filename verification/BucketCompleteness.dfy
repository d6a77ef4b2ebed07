/**
 Bucket completeness of one day partition: how many aggregation buckets are
 closed, complete and gap affected.  The report has three ways to count (a
 sweep over an active partition, a sweep over a finalized one, a cached
 summary); each is compared with counting bucket by bucket on raw intervals.
 */
module BucketCompleteness {
  import opened Options
  import opened Intervals
  import opened Grid
  import opened Arithmetic

  // What a bucket is judged by: the three coverage feeds and the gaps.
  datatype Feeds = Feeds(trade: seq<Interval>, depth: seq<Interval>, valid: seq<Interval>, gaps: seq<Interval>)

  datatype Minimums = Minimums(trade: real, depth: real, valid: real)

  datatype Counts = Counts(closed: nat, complete: nat, gapAffected: nat)

  // Bounds that _partition_day_bounds can return.
  predicate IsDay(dayStart: int, dayEnd: int) {
    Aligned(dayStart, DAY_MS) && (dayEnd == dayStart + DAY_MS || dayEnd == dayStart == 0)
  }

  // ---- the simple definition, bucket by bucket on raw intervals ----

  ghost predicate Enough(segs: seq<Interval>, start: int, interval: int, minimum: real)
    requires IsInterval(interval)
  {
    CoveredCount(segs, start, start + interval) as real / interval as real >= minimum
  }

  ghost predicate Complete(f: Feeds, m: Minimums, start: int, interval: int)
    requires IsInterval(interval)
  {
    && Enough(f.trade, start, interval, m.trade)
    && Enough(f.depth, start, interval, m.depth)
    && Enough(f.valid, start, interval, m.valid)
    && !Touches(f.gaps, start, start + interval)
  }

  // How many of the bucket starts range(first, limit, interval) satisfy p.
  ghost function Tally(p: int -> bool, first: int, limit: int, interval: int): nat
    requires IsInterval(interval)
    decreases limit - first
  {
    if first >= limit then 0
    else (if p(first) then 1 else 0) + Tally(p, first + interval, limit, interval)
  }

  // Every bucket of the range is closed.
  ghost function Closed(): int -> bool {
    start => true
  }

  ghost function CompleteAt(f: Feeds, m: Minimums, interval: int): int -> bool
    requires IsInterval(interval)
  {
    start => Complete(f, m, start, interval)
  }

  ghost function GapAt(f: Feeds, interval: int): int -> bool {
    start => Touches(f.gaps, start, start + interval)
  }

  ghost function CountBuckets(f: Feeds, m: Minimums, first: int, limit: int, interval: int): Counts
    requires IsInterval(interval)
  {
    Counts(Tally(Closed(), first, limit, interval),
           Tally(CompleteAt(f, m, interval), first, limit, interval),
           Tally(GapAt(f, interval), first, limit, interval))
  }

  function FirstBucket(dayStart: int, evaluationStart: int, interval: int): int
    requires IsInterval(interval)
  {
    var aligned := Bucket(evaluationStart, interval);
    if dayStart > aligned then dayStart else aligned
  }

  ghost function FinalizedCounts(f: Feeds, m: Minimums, dayStart: int, dayEnd: int, evaluationStart: int,
                                 interval: int): Counts
    requires IsInterval(interval)
  {
    CountBuckets(f, m, FirstBucket(dayStart, evaluationStart, interval), dayEnd, interval)
  }

  function LatestClosed(dayEnd: int, now: int, interval: int): int
    requires IsInterval(interval)
  {
    Bucket(if dayEnd < now then dayEnd else now, interval) - interval
  }

  ghost function ActiveCounts(f: Feeds, m: Minimums, dayStart: int, dayEnd: int, evaluationStart: int, now: int,
                              interval: int): Counts
    requires IsInterval(interval)
  {
    CountBuckets(f, m, FirstBucket(dayStart, evaluationStart, interval),
                 LatestClosed(dayEnd, now, interval) + 1, interval)
  }

  // ---- agreement of the three ways ----

  lemma {:induction false} LastBucketStart(p: int -> bool, first: int, dayEnd: int, interval: int)
    requires IsInterval(interval) && Aligned(first, interval) && Aligned(dayEnd, interval)
    ensures Tally(p, first, dayEnd - interval + 1, interval) == Tally(p, first, dayEnd, interval)
    decreases dayEnd - first
  {
    if first < dayEnd {
      NextAligned(first, dayEnd, interval);
      LastBucketStart(p, first + interval, dayEnd, interval);
    }
  }

  lemma DayIsAligned(dayStart: int, dayEnd: int, interval: int)
    requires IsDay(dayStart, dayEnd) && IsInterval(interval)
    ensures Aligned(dayStart, interval) && Aligned(dayEnd, interval)
  {
    DaysAreAligned(dayStart, interval);
  }

  lemma FirstBucketIsAligned(dayStart: int, evaluationStart: int, interval: int)
    requires IsInterval(interval) && Aligned(dayStart, interval)
    ensures Aligned(FirstBucket(dayStart, evaluationStart, interval), interval)
    ensures FirstBucket(dayStart, evaluationStart, interval) >= dayStart
    ensures evaluationStart <= dayStart ==> FirstBucket(dayStart, evaluationStart, interval) == dayStart
  {
    BucketIsAligned(evaluationStart, interval);
  }

  // Once the day is over, the active-partition sweep counts what the finalized one counts.
  lemma ActiveIsFinalized(f: Feeds, m: Minimums, dayStart: int, dayEnd: int, evaluationStart: int, now: int,
                          interval: int)
    requires IsDay(dayStart, dayEnd) && IsInterval(interval) && dayEnd <= now
    ensures ActiveCounts(f, m, dayStart, dayEnd, evaluationStart, now, interval)
         == FinalizedCounts(f, m, dayStart, dayEnd, evaluationStart, interval)
  {
    DayIsAligned(dayStart, dayEnd, interval);
    FirstBucketIsAligned(dayStart, evaluationStart, interval);
    BucketIsAligned(dayEnd, interval);
    var first := FirstBucket(dayStart, evaluationStart, interval);
    LastBucketStart(Closed(), first, dayEnd, interval);
    LastBucketStart(CompleteAt(f, m, interval), first, dayEnd, interval);
    LastBucketStart(GapAt(f, interval), first, dayEnd, interval);
  }

  // Two sets of intervals that say the same about every millisecond of [from, upto).
  ghost predicate AgreeOn(a: Feeds, b: Feeds, from: int, upto: int) {
    && (forall t | from <= t < upto :: Covers(a.trade, t) <==> Covers(b.trade, t))
    && (forall t | from <= t < upto :: Covers(a.depth, t) <==> Covers(b.depth, t))
    && (forall t | from <= t < upto :: Covers(a.valid, t) <==> Covers(b.valid, t))
    && (forall t | from <= t < upto :: Reaches(a.gaps, t) <==> Reaches(b.gaps, t))
  }

  lemma AgreeOnBucket(a: Feeds, b: Feeds, m: Minimums, start: int, interval: int)
    requires IsInterval(interval) && AgreeOn(a, b, start, start + interval)
    ensures Complete(a, m, start, interval) <==> Complete(b, m, start, interval)
    ensures Touches(a.gaps, start, start + interval) <==> Touches(b.gaps, start, start + interval)
  {
    CountCongruent(a.trade, b.trade, start, start + interval);
    CountCongruent(a.depth, b.depth, start, start + interval);
    CountCongruent(a.valid, b.valid, start, start + interval);
    TouchesIsReaches(a.gaps, start, start + interval);
    TouchesIsReaches(b.gaps, start, start + interval);
  }

  lemma {:induction false} AgreeOnCounts(a: Feeds, b: Feeds, m: Minimums, first: int, dayEnd: int, interval: int)
    requires IsInterval(interval) && Aligned(first, interval) && Aligned(dayEnd, interval)
    requires AgreeOn(a, b, first, dayEnd)
    ensures CountBuckets(a, m, first, dayEnd, interval) == CountBuckets(b, m, first, dayEnd, interval)
    decreases dayEnd - first
  {
    if first < dayEnd {
      NextAligned(first, dayEnd, interval);
      AgreeOnBucket(a, b, m, first, interval);
      AgreeOnCounts(a, b, m, first + interval, dayEnd, interval);
    }
  }

  // The test a cached summary must pass to be reused.
  predicate Reusable(cachedStart: int, evaluationStart: int, dayStart: int) {
    cachedStart == evaluationStart || (cachedStart <= dayStart && evaluationStart <= dayStart)
  }

  // A summary computed earlier, from intervals that agree over the day, is what a fresh sweep gives.
  lemma CachedSummaryIsFinalized(before: Feeds, now: Feeds, m: Minimums, dayStart: int, dayEnd: int,
                                 cachedStart: int, evaluationStart: int, interval: int)
    requires IsDay(dayStart, dayEnd) && IsInterval(interval) && AgreeOn(before, now, dayStart, dayEnd)
    requires Reusable(cachedStart, evaluationStart, dayStart)
    ensures FinalizedCounts(before, m, dayStart, dayEnd, cachedStart, interval)
         == FinalizedCounts(now, m, dayStart, dayEnd, evaluationStart, interval)
  {
    DayIsAligned(dayStart, dayEnd, interval);
    FirstBucketIsAligned(dayStart, cachedStart, interval);
    FirstBucketIsAligned(dayStart, evaluationStart, interval);
    AgreeOnCounts(before, now, m, FirstBucket(dayStart, evaluationStart, interval), dayEnd, interval);
  }

  // ---- which buckets are counted, and how many ----

  // The buckets of a range that satisfy p.
  ghost function BucketsWith(p: int -> bool, first: int, limit: int, interval: int): set<int>
    requires IsInterval(interval)
  {
    set start: int | first <= start < limit && Aligned(start, interval) && p(start)
  }

  lemma {:induction false} TallyIsCount(p: int -> bool, first: int, limit: int, interval: int)
    requires IsInterval(interval) && Aligned(first, interval)
    ensures Tally(p, first, limit, interval) == |BucketsWith(p, first, limit, interval)|
    decreases limit - first
  {
    if first < limit {
      NextAligned(first, first, interval);
      TallyIsCount(p, first + interval, limit, interval);
      BucketsStep(p, first, limit, interval);
    } else {
      assert BucketsWith(p, first, limit, interval) == {};
    }
  }

  lemma BucketsStep(p: int -> bool, first: int, limit: int, interval: int)
    requires IsInterval(interval) && Aligned(first, interval) && first < limit
    ensures var rest := BucketsWith(p, first + interval, limit, interval);
            && first !in rest
            && BucketsWith(p, first, limit, interval) == if p(first) then rest + {first} else rest
  {
    var all, rest := BucketsWith(p, first, limit, interval), BucketsWith(p, first + interval, limit, interval);
    forall start | start in all && start != first ensures start in rest {
      NextAligned(first, start, interval);
    }
  }

  // A bucket that starts on the grid starts at or after the first counted one exactly when it belongs to
  // the day and ends after the evaluation start.
  lemma FirstBucketMeaning(dayStart: int, evaluationStart: int, interval: int, start: int)
    requires IsInterval(interval) && Aligned(start, interval)
    ensures FirstBucket(dayStart, evaluationStart, interval) <= start
       <==> dayStart <= start && evaluationStart < start + interval
  {
    var aligned := Bucket(evaluationStart, interval);
    BucketIsAligned(evaluationStart, interval);
    if start < aligned { NextAligned(start, aligned, interval); }
  }

  // It starts before the limit of an active partition exactly when it ends within the day and by now.
  lemma LatestClosedMeaning(dayEnd: int, now: int, interval: int, start: int)
    requires IsInterval(interval) && Aligned(start, interval) && Aligned(dayEnd, interval)
    ensures start < LatestClosed(dayEnd, now, interval) + 1 <==> start < dayEnd && start + interval <= now
  {
    var cut := if dayEnd < now then dayEnd else now;
    BucketIsAligned(cut, interval);
    NextAligned(start, dayEnd, interval);
    if start + interval <= cut {
      NextAligned(start, start, interval);
      if Bucket(cut, interval) < start + interval { NextAligned(Bucket(cut, interval), start + interval, interval); }
    }
  }

  // The bucket has enough of each feed, and no gap of positive length starts before its end and ends at
  // or after its start.
  ghost predicate WellCovered(f: Feeds, m: Minimums, start: int, interval: int)
    requires interval > 0
  {
    && CoveredCount(f.trade, start, start + interval) as real >= m.trade * interval as real
    && CoveredCount(f.depth, start, start + interval) as real >= m.depth * interval as real
    && CoveredCount(f.valid, start, start + interval) as real >= m.valid * interval as real
    && !GapTouches(f.gaps, start, interval)
  }

  ghost predicate GapTouches(gaps: seq<Interval>, start: int, interval: int) {
    exists gap | gap in gaps :: gap.0 < gap.1 && gap.0 < start + interval && start <= gap.1
  }

  lemma GapTouchesMeaning(gaps: seq<Interval>, start: int, interval: int)
    ensures GapTouches(gaps, start, interval) <==> Touches(gaps, start, start + interval)
  {
    if Touches(gaps, start, start + interval) {
      var i :| 0 <= i < |gaps| && gaps[i].0 < gaps[i].1 && gaps[i].0 < start + interval && gaps[i].1 >= start;
      assert gaps[i] in gaps;
    }
  }

  lemma CompleteMeaning(f: Feeds, m: Minimums, start: int, interval: int)
    requires IsInterval(interval)
    ensures Complete(f, m, start, interval) <==> WellCovered(f, m, start, interval)
  {
    QuotientAgainst(CoveredCount(f.trade, start, start + interval) as real, interval as real, m.trade);
    QuotientAgainst(CoveredCount(f.depth, start, start + interval) as real, interval as real, m.depth);
    QuotientAgainst(CoveredCount(f.valid, start, start + interval) as real, interval as real, m.valid);
    GapTouchesMeaning(f.gaps, start, interval);
  }

  // Counting the buckets of a range is counting three sets of bucket starts.
  lemma CountsAreSets(f: Feeds, m: Minimums, first: int, limit: int, interval: int, buckets: set<int>)
    requires IsInterval(interval) && Aligned(first, interval)
    requires forall start :: start in buckets <==> first <= start < limit && Aligned(start, interval)
    ensures var counts := CountBuckets(f, m, first, limit, interval);
            && counts.closed == |buckets|
            && counts.complete == |set start | start in buckets && WellCovered(f, m, start, interval)|
            && counts.gapAffected == |set start | start in buckets && GapTouches(f.gaps, start, interval)|
  {
    TallyIsCount(Closed(), first, limit, interval);
    TallyIsCount(CompleteAt(f, m, interval), first, limit, interval);
    TallyIsCount(GapAt(f, interval), first, limit, interval);
    forall start
      ensures CompleteAt(f, m, interval)(start) <==> WellCovered(f, m, start, interval)
      ensures GapAt(f, interval)(start) <==> GapTouches(f.gaps, start, interval)
    {
      CompleteMeaning(f, m, start, interval);
      GapTouchesMeaning(f.gaps, start, interval);
    }
    assert buckets == BucketsWith(Closed(), first, limit, interval);
    assert (set start | start in buckets && WellCovered(f, m, start, interval))
        == BucketsWith(CompleteAt(f, m, interval), first, limit, interval);
    assert (set start | start in buckets && GapTouches(f.gaps, start, interval))
        == BucketsWith(GapAt(f, interval), first, limit, interval);
  }

  // The buckets of the day that end after the evaluation start.
  ghost function DayBuckets(dayStart: int, dayEnd: int, evaluationStart: int, interval: int): set<int>
    requires IsInterval(interval)
  {
    set start: int | dayStart <= start < dayEnd && Aligned(start, interval) && evaluationStart < start + interval
  }

  // A finalized partition counts the buckets of its day that end after the evaluation start.
  lemma FinalizedCountsAre(f: Feeds, m: Minimums, dayStart: int, dayEnd: int, evaluationStart: int, interval: int)
    requires IsDay(dayStart, dayEnd) && IsInterval(interval)
    ensures var counts := FinalizedCounts(f, m, dayStart, dayEnd, evaluationStart, interval);
            var buckets := DayBuckets(dayStart, dayEnd, evaluationStart, interval);
            && counts.closed == |buckets|
            && counts.complete == |set start | start in buckets && WellCovered(f, m, start, interval)|
            && counts.gapAffected == |set start | start in buckets && GapTouches(f.gaps, start, interval)|
  {
    var first := FirstBucket(dayStart, evaluationStart, interval);
    var buckets := DayBuckets(dayStart, dayEnd, evaluationStart, interval);
    DayIsAligned(dayStart, dayEnd, interval);
    FirstBucketIsAligned(dayStart, evaluationStart, interval);
    forall start ensures start in buckets <==> first <= start < dayEnd && Aligned(start, interval) {
      if Aligned(start, interval) { FirstBucketMeaning(dayStart, evaluationStart, interval, start); }
    }
    CountsAreSets(f, m, first, dayEnd, interval, buckets);
  }

  // An active partition counts those of them that have also ended by now.
  lemma ActiveCountsAre(f: Feeds, m: Minimums, dayStart: int, dayEnd: int, evaluationStart: int, now: int,
                        interval: int)
    requires IsDay(dayStart, dayEnd) && IsInterval(interval)
    ensures var counts := ActiveCounts(f, m, dayStart, dayEnd, evaluationStart, now, interval);
            var buckets := set start | start in DayBuckets(dayStart, dayEnd, evaluationStart, interval)
                                       && start + interval <= now;
            && counts.closed == |buckets|
            && counts.complete == |set start | start in buckets && WellCovered(f, m, start, interval)|
            && counts.gapAffected == |set start | start in buckets && GapTouches(f.gaps, start, interval)|
  {
    var first, limit := FirstBucket(dayStart, evaluationStart, interval), LatestClosed(dayEnd, now, interval) + 1;
    var buckets := set start | start in DayBuckets(dayStart, dayEnd, evaluationStart, interval)
                               && start + interval <= now;
    DayIsAligned(dayStart, dayEnd, interval);
    FirstBucketIsAligned(dayStart, evaluationStart, interval);
    forall start ensures start in buckets <==> first <= start < limit && Aligned(start, interval) {
      if Aligned(start, interval) {
        FirstBucketMeaning(dayStart, evaluationStart, interval, start);
        LatestClosedMeaning(dayEnd, now, interval, start);
      }
    }
    CountsAreSets(f, m, first, limit, interval, buckets);
  }

  // ---- the report's clipping of open segments ----

  // Every segment cut at the time of the report.
  function CutAt(segs: seq<Interval>, now: int): seq<Interval> {
    if segs == [] then []
    else
      var x := segs[|segs| - 1];
      CutAt(segs[..|segs| - 1], now) + [(x.0, if now < x.1 then now else x.1)]
  }

  lemma {:induction false} CutAtMeaning(segs: seq<Interval>, now: int, t: int)
    ensures Covers(CutAt(segs, now), t) <==> Covers(segs, t) && t < now
  {
    if segs != [] {
      var init, x := segs[..|segs| - 1], segs[|segs| - 1];
      CutAtMeaning(init, now, t);
      assert segs == init + [x];
      CoversSnoc(init, x, t);
      CoversSnoc(CutAt(init, now), (x.0, if now < x.1 then now else x.1), t);
    }
  }

  function FeedsAt(raw: Feeds, now: int): Feeds {
    Feeds(CutAt(raw.trade, now), CutAt(raw.depth, now), CutAt(raw.valid, now), raw.gaps)
  }

  // Two reports made after the day over the same rows agree on the day.
  lemma ReportsAfterTheDayAgree(raw: Feeds, before: int, now: int, dayStart: int, dayEnd: int)
    requires dayEnd <= before && dayEnd <= now
    ensures AgreeOn(FeedsAt(raw, before), FeedsAt(raw, now), dayStart, dayEnd)
  {
    forall t | dayStart <= t < dayEnd
      ensures Covers(CutAt(raw.trade, before), t) <==> Covers(CutAt(raw.trade, now), t)
      ensures Covers(CutAt(raw.depth, before), t) <==> Covers(CutAt(raw.depth, now), t)
      ensures Covers(CutAt(raw.valid, before), t) <==> Covers(CutAt(raw.valid, now), t)
    {
      CutAtMeaning(raw.trade, before, t); CutAtMeaning(raw.trade, now, t);
      CutAtMeaning(raw.depth, before, t); CutAtMeaning(raw.depth, now, t);
      CutAtMeaning(raw.valid, before, t); CutAtMeaning(raw.valid, now, t);
    }
  }

  // No bucket is both complete and gap affected.
  lemma {:induction false} CompleteAndGapsWithinClosed(f: Feeds, m: Minimums, first: int, limit: int, interval: int)
    requires IsInterval(interval)
    ensures var c := CountBuckets(f, m, first, limit, interval); c.complete + c.gapAffected <= c.closed
    decreases limit - first
  {
    if first < limit {
      assert !(CompleteAt(f, m, interval)(first) && GapAt(f, interval)(first));
      CompleteAndGapsWithinClosed(f, m, first + interval, limit, interval);
    }
  }

  // ---- exactly when a cached summary is stale ----

  // The feeds of a later report: the segments say the same over the day, and gap rows were only added.
  ghost predicate GapsAdded(before: Feeds, now: Feeds, added: seq<Interval>, from: int, upto: int) {
    && AgreeOn(before.(gaps := []), now.(gaps := []), from, upto)
    && (forall x :: x in now.gaps <==> x in before.gaps || x in added)
  }

  // Every bucket of the range that an added gap touches was touched by an earlier gap already.
  ghost predicate NothingNewTouched(before: seq<Interval>, added: seq<Interval>, first: int, dayEnd: int, interval: int)
    requires IsInterval(interval)
  {
    forall start | first <= start < dayEnd && Aligned(start, interval) ::
      Touches(added, start, start + interval) ==> Touches(before, start, start + interval)
  }

  lemma TouchesUnion(before: seq<Interval>, added: seq<Interval>, now: seq<Interval>, from: int, upto: int)
    requires forall x :: x in now <==> x in before || x in added
    ensures Touches(now, from, upto) <==> Touches(before, from, upto) || Touches(added, from, upto)
  {
    if Touches(now, from, upto) {
      var i :| 0 <= i < |now| && now[i].0 < now[i].1 && now[i].0 < upto && now[i].1 >= from;
      assert now[i] in before || now[i] in added;
    }
    if Touches(before, from, upto) {
      var i :| 0 <= i < |before| && before[i].0 < before[i].1 && before[i].0 < upto && before[i].1 >= from;
      assert before[i] in now;
    }
    if Touches(added, from, upto) {
      var i :| 0 <= i < |added| && added[i].0 < added[i].1 && added[i].0 < upto && added[i].1 >= from;
      assert added[i] in now;
    }
  }

  // A bucket that no new gap touches for the first time is judged as before.
  lemma SameBucket(before: Feeds, now: Feeds, added: seq<Interval>, m: Minimums, start: int, interval: int)
    requires IsInterval(interval) && GapsAdded(before, now, added, start, start + interval)
    ensures Touches(before.gaps, start, start + interval) ==> Touches(now.gaps, start, start + interval)
    ensures Touches(before.gaps, start, start + interval) == Touches(now.gaps, start, start + interval) ==>
              Complete(before, m, start, interval) == Complete(now, m, start, interval)
  {
    TouchesUnion(before.gaps, added, now.gaps, start, start + interval);
    CountCongruent(before.trade, now.trade, start, start + interval);
    CountCongruent(before.depth, now.depth, start, start + interval);
    CountCongruent(before.valid, now.valid, start, start + interval);
  }

  lemma NothingNewSplits(before: seq<Interval>, added: seq<Interval>, first: int, dayEnd: int, interval: int)
    requires IsInterval(interval) && Aligned(first, interval) && first < dayEnd
    ensures NothingNewTouched(before, added, first, dayEnd, interval)
       <==> (Touches(added, first, first + interval) ==> Touches(before, first, first + interval))
            && NothingNewTouched(before, added, first + interval, dayEnd, interval)
  {
    forall start | first < start < dayEnd && Aligned(start, interval) ensures first + interval <= start {
      NextAligned(first, start, interval);
    }
  }

  // Added gaps never lower the gap-affected count, and leave all counts alone exactly when they touch nothing new.
  lemma {:induction false} AddedGapsCount(before: Feeds, now: Feeds, added: seq<Interval>, m: Minimums,
                                          first: int, dayEnd: int, interval: int)
    requires IsInterval(interval) && Aligned(first, interval) && Aligned(dayEnd, interval)
    requires GapsAdded(before, now, added, first, dayEnd)
    ensures Tally(GapAt(before, interval), first, dayEnd, interval)
         <= Tally(GapAt(now, interval), first, dayEnd, interval)
    ensures CountBuckets(before, m, first, dayEnd, interval) == CountBuckets(now, m, first, dayEnd, interval)
       <==> NothingNewTouched(before.gaps, added, first, dayEnd, interval)
    decreases dayEnd - first
  {
    if first < dayEnd {
      NextAligned(first, dayEnd, interval);
      var next := first + interval;
      AddedGapsCount(before, now, added, m, next, dayEnd, interval);
      SameBucket(before, now, added, m, first, interval);
      TouchesUnion(before.gaps, added, now.gaps, first, next);
      NothingNewSplits(before.gaps, added, first, dayEnd, interval);
    }
  }

  // With the segments unchanged over the day, a reused summary is what a fresh sweep gives if and only if
  // every bucket of the range that an added gap touches was touched by an earlier gap already.
  lemma SummaryIsCurrentExactly(before: Feeds, now: Feeds, added: seq<Interval>, m: Minimums,
                                dayStart: int, dayEnd: int, cachedStart: int, evaluationStart: int, interval: int)
    requires IsDay(dayStart, dayEnd) && IsInterval(interval) && Reusable(cachedStart, evaluationStart, dayStart)
    requires GapsAdded(before, now, added, dayStart, dayEnd)
    ensures FinalizedCounts(before, m, dayStart, dayEnd, cachedStart, interval)
         == FinalizedCounts(now, m, dayStart, dayEnd, evaluationStart, interval)
       <==> NothingNewTouched(before.gaps, added, FirstBucket(dayStart, evaluationStart, interval), dayEnd, interval)
  {
    DayIsAligned(dayStart, dayEnd, interval);
    FirstBucketIsAligned(dayStart, cachedStart, interval);
    FirstBucketIsAligned(dayStart, evaluationStart, interval);
    AddedGapsCount(before, now, added, m, FirstBucket(dayStart, evaluationStart, interval), dayEnd, interval);
  }

  // Such a gap: an instance of the day before is orphaned after this day was finalized, and its
  // gap, filed under the day before, reaches into this one.  The reused counts are wrong.
  lemma StaleSummaryExample(before: Feeds, now: Feeds, m: Minimums, dayStart: int, interval: int, gap: Interval)
    requires IsDay(dayStart, dayStart + DAY_MS) && IsInterval(interval) && before.gaps == []
    requires gap.0 < dayStart < gap.1 && now == before.(gaps := [gap])
    ensures Reusable(dayStart, dayStart, dayStart)
    ensures FinalizedCounts(before, m, dayStart, dayStart + DAY_MS, dayStart, interval)
         != FinalizedCounts(now, m, dayStart, dayStart + DAY_MS, dayStart, interval)
  {
    var dayEnd := dayStart + DAY_MS;
    DayIsAligned(dayStart, dayEnd, interval);
    FirstBucketIsAligned(dayStart, dayStart, interval);
    SummaryIsCurrentExactly(before, now, [gap], m, dayStart, dayEnd, dayStart, dayStart, interval);
    assert [gap][0].0 < [gap][0].1;
    assert Touches([gap], dayStart, dayStart + interval);
  }

  // ---- the loops ----

  ghost predicate MergedFeeds(merged: Feeds, raw: Feeds) {
    && Merged(merged.trade) && SameCover(merged.trade, raw.trade)
    && Merged(merged.depth) && SameCover(merged.depth, raw.depth)
    && Merged(merged.valid) && SameCover(merged.valid, raw.valid)
    && Merged(merged.gaps) && SameCover(merged.gaps, raw.gaps)
  }

  // The report merges each feed once, and the gaps per partition and then across partitions.
  method MergeFeeds(trade: seq<Interval>, depth: seq<Interval>, valid: seq<Interval>, gapTables: seq<seq<Interval>>)
    returns (merged: Feeds)
    ensures MergedFeeds(merged, Feeds(trade, depth, valid, Concat(gapTables)))
  {
    var mergedTrade := MergeLoop(trade);
    var mergedDepth := MergeLoop(depth);
    var mergedValid := MergeLoop(valid);
    var mergedGaps := MergeLoop(Concat(MergeEach(gapTables)));
    MergeMeaning(trade);
    MergeMeaning(depth);
    MergeMeaning(valid);
    TwoLevelMergeMeaning(gapTables);
    merged := Feeds(mergedTrade, mergedDepth, mergedValid, mergedGaps);
  }

  datatype Hints = Hints(trade: nat, depth: nat, valid: nat, gap: nat)

  ghost predicate HintsFit(merged: Feeds, start: int, h: Hints) {
    && HintFits(merged.trade, start, h.trade)
    && HintFits(merged.depth, start, h.depth)
    && HintFits(merged.valid, start, h.valid)
    && HintFits(merged.gaps, start, h.gap)
  }

  ghost predicate AllMerged(f: Feeds) {
    Merged(f.trade) && Merged(f.depth) && Merged(f.valid) && Merged(f.gaps)
  }

  // How far the sweep has counted.
  ghost predicate Counted(done: Counts, f: Feeds, m: Minimums, first: int, start: int, limit: int, interval: int)
    requires IsInterval(interval)
  {
    && done.closed + Tally(Closed(), start, limit, interval) == Tally(Closed(), first, limit, interval)
    && done.complete + Tally(CompleteAt(f, m, interval), start, limit, interval)
         == Tally(CompleteAt(f, m, interval), first, limit, interval)
    && done.gapAffected + Tally(GapAt(f, interval), start, limit, interval)
        == Tally(GapAt(f, interval), first, limit, interval)
  }

  lemma CountOne(done: Counts, f: Feeds, m: Minimums, first: int, start: int, limit: int, interval: int)
    requires IsInterval(interval) && start < limit && Counted(done, f, m, first, start, limit, interval)
    ensures Counted(Counts(done.closed + 1,
                           done.complete + if CompleteAt(f, m, interval)(start) then 1 else 0,
                           done.gapAffected + if GapAt(f, interval)(start) then 1 else 0),
                    f, m, first, start + interval, limit, interval)
  {
  }

  // One bucket, judged through the merged intervals and the carried hints.
  method JudgeBucket(merged: Feeds, m: Minimums, start: int, interval: int, hints: Hints)
    returns (complete: bool, gapOverlap: bool, next: Hints)
    requires IsInterval(interval) && HintsFit(merged, start, hints) && AllMerged(merged)
    ensures complete == CompleteAt(merged, m, interval)(start)
    ensures gapOverlap == GapAt(merged, interval)(start)
    ensures HintsFit(merged, start + interval, next)
  {
    var end := start + interval;
    var gap, trade, depth, valid;
    var coveredTrade, coveredDepth, coveredValid;
    gapOverlap, gap := FastHasGap(merged.gaps, start, end, hints.gap);
    coveredTrade, trade := FastCovered(merged.trade, start, end, hints.trade);
    coveredDepth, depth := FastCovered(merged.depth, start, end, hints.depth);
    coveredValid, valid := FastCovered(merged.valid, start, end, hints.valid);
    var tradeRatio := coveredTrade as real / interval as real;
    var depthRatio := coveredDepth as real / interval as real;
    var validRatio := coveredValid as real / interval as real;
    complete := tradeRatio >= m.trade && depthRatio >= m.depth && validRatio >= m.valid && !gapOverlap;
    next := Hints(trade, depth, valid, gap);
  }

  // The ascending sweep over range(first, limit, interval).
  method SweepBuckets(merged: Feeds, m: Minimums, first: int, limit: int, interval: int) returns (total: Counts)
    requires IsInterval(interval) && AllMerged(merged)
    ensures total == CountBuckets(merged, m, first, limit, interval)
  {
    var closed: nat, complete: nat, gapAffected: nat := 0, 0, 0;
    var start, hints := first, Hints(0, 0, 0, 0);
    while start < limit
      invariant HintsFit(merged, start, hints)
      invariant Counted(Counts(closed, complete, gapAffected), merged, m, first, start, limit, interval)
      decreases limit - start
    {
      CountOne(Counts(closed, complete, gapAffected), merged, m, first, start, limit, interval);
      var isComplete, hasGap, next := JudgeBucket(merged, m, start, interval, hints);
      closed := closed + 1;
      if hasGap {
        gapAffected := gapAffected + 1;
      }
      if isComplete {
        complete := complete + 1;
      }
      start, hints := start + interval, next;
    }
    total := Counts(closed, complete, gapAffected);
  }

  // Judging by merged intervals is judging by the raw ones.
  lemma {:induction false} MergedCountsAreRaw(merged: Feeds, raw: Feeds, m: Minimums, first: int, limit: int,
                                              interval: int)
    requires IsInterval(interval) && MergedFeeds(merged, raw)
    ensures CountBuckets(merged, m, first, limit, interval) == CountBuckets(raw, m, first, limit, interval)
    decreases limit - first
  {
    if first < limit {
      AgreeOnBucket(merged, raw, m, first, interval);
      MergedCountsAreRaw(merged, raw, m, first + interval, limit, interval);
    }
  }

  datatype Summary = Summary(evaluationStart: int, counts: Counts)

  // One partition and one interval of the status report, through whichever branch it takes.
  method CountPartition(merged: Feeds, ghost raw: Feeds, m: Minimums, finalized: bool, summary: Option<Summary>,
                        ghost cachedFrom: Feeds, dayStart: int, dayEnd: int, evaluationStart: int, now: int,
                        interval: int)
    returns (counts: Counts)
    requires IsDay(dayStart, dayEnd) && IsInterval(interval) && MergedFeeds(merged, raw)
    requires summary.Some? ==>
               summary.value.counts
               == FinalizedCounts(cachedFrom, m, dayStart, dayEnd, summary.value.evaluationStart, interval)
    ensures finalized && summary.Some?
            && (summary.value.evaluationStart == evaluationStart
                || (summary.value.evaluationStart <= dayStart && evaluationStart <= dayStart)) ==>
              && counts == FinalizedCounts(cachedFrom, m, dayStart, dayEnd, evaluationStart, interval)
              && (AgreeOn(cachedFrom, raw, dayStart, dayEnd) ==>
                    counts == FinalizedCounts(raw, m, dayStart, dayEnd, evaluationStart, interval))
    ensures finalized
            && (summary.None?
                || (summary.value.evaluationStart != evaluationStart
                    && (summary.value.evaluationStart > dayStart || evaluationStart > dayStart))) ==>
              counts == FinalizedCounts(raw, m, dayStart, dayEnd, evaluationStart, interval)
    ensures !finalized && dayEnd <= now ==>
              counts == FinalizedCounts(raw, m, dayStart, dayEnd, evaluationStart, interval)
    ensures !finalized ==> counts == ActiveCounts(raw, m, dayStart, dayEnd, evaluationStart, now, interval)
    ensures counts.complete + counts.gapAffected <= counts.closed
  {
    var first := FirstBucket(dayStart, evaluationStart, interval);
    CompleteAndGapsWithinClosed(raw, m, first, dayEnd, interval);
    CompleteAndGapsWithinClosed(raw, m, first, LatestClosed(dayEnd, now, interval) + 1, interval);
    MergedCountsAreRaw(merged, raw, m, first, dayEnd, interval);
    MergedCountsAreRaw(merged, raw, m, first, LatestClosed(dayEnd, now, interval) + 1, interval);
    if finalized {
      if summary.Some? && Reusable(summary.value.evaluationStart, evaluationStart, dayStart) {
        var cachedStart := summary.value.evaluationStart;
        CompleteAndGapsWithinClosed(cachedFrom, m, first, dayEnd, interval);
        CachedSummaryIsFinalized(cachedFrom, cachedFrom, m, dayStart, dayEnd, cachedStart, evaluationStart, interval);
        if AgreeOn(cachedFrom, raw, dayStart, dayEnd) {
          CachedSummaryIsFinalized(cachedFrom, raw, m, dayStart, dayEnd, cachedStart, evaluationStart, interval);
        }
        counts := summary.value.counts;
      } else {
        counts := SweepBuckets(merged, m, first, dayEnd, interval);
      }
    } else {
      counts := SweepBuckets(merged, m, first, LatestClosed(dayEnd, now, interval) + 1, interval);
    }
    if dayEnd <= now {
      ActiveIsFinalized(raw, m, dayStart, dayEnd, evaluationStart, now, interval);
    }
  }
}
