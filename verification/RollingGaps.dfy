/**
 Gap rows of the day partitions and the rolling gap count of the status report.
 The report avoids reading most rows: it uses a per-partition count, a list of
 gaps that spill past the day, or the extremes, and queries only as a last resort.
 */
module RollingGaps {
  import opened Options
  import opened Intervals
  import opened Grid

  // ---- filing ----

  function DayOf(t: int): int { t / DAY_MS }
  function DayStart(day: int): int { day * DAY_MS }
  function DayEnd(day: int): int { day * DAY_MS + DAY_MS }

  // The gap tables of all partitions, by day.
  type Tables = map<int, seq<Interval>>

  function GapEnd(t: int, end: Option<int>): int {
    if end.Some? && end.value > t then end.value else t
  }

  // gap(): the row goes to the partition of its start; a finalized partition refuses it.
  function FileGap(tables: Tables, finalized: set<int>, t: int, end: Option<int>): Tables {
    var day := DayOf(t);
    if day in finalized then tables
    else tables[day := (if day in tables then tables[day] else []) + [(t, GapEnd(t, end))]]
  }

  // Every row lies in the partition of its start and ends no earlier than it starts.
  ghost predicate FiledBy(day: int, rows: seq<Interval>) {
    forall i | 0 <= i < |rows| :: DayStart(day) <= rows[i].0 < DayEnd(day) && rows[i].0 <= rows[i].1
  }

  ghost predicate Filed(tables: Tables) {
    forall day | day in tables :: FiledBy(day, tables[day])
  }

  lemma FileGapKeepsFiled(tables: Tables, finalized: set<int>, t: int, end: Option<int>)
    requires Filed(tables)
    ensures Filed(FileGap(tables, finalized, t, end))
    ensures forall day | day in finalized && day in tables ::
              day in FileGap(tables, finalized, t, end) && FileGap(tables, finalized, t, end)[day] == tables[day]
  {
    assert DayStart(DayOf(t)) <= t < DayEnd(DayOf(t));
  }

  datatype GapCall = GapCall(t: int, end: Option<int>, finalized: set<int>)

  function FileAll(calls: seq<GapCall>): Tables {
    if calls == [] then map[]
    else
      var call := calls[|calls| - 1];
      FileGap(FileAll(calls[..|calls| - 1]), call.finalized, call.t, call.end)
  }

  // The filing rule holds after every sequence of gap() calls, whatever is finalized in between.
  lemma {:induction false} EveryRunIsFiled(calls: seq<GapCall>)
    ensures Filed(FileAll(calls))
  {
    if calls != [] {
      var call := calls[|calls| - 1];
      EveryRunIsFiled(calls[..|calls| - 1]);
      FileGapKeepsFiled(FileAll(calls[..|calls| - 1]), call.finalized, call.t, call.end);
    }
  }

  // The call's day, in whole days since the epoch, is open.
  predicate Accepted(call: GapCall) {
    call.t / DAY_MS !in call.finalized
  }

  // The rows that calls up to the n-th filed under a day, in order.
  function FiledUnder(calls: seq<GapCall>, day: int): seq<Interval> {
    if calls == [] then []
    else
      var rest, call := FiledUnder(calls[..|calls| - 1], day), calls[|calls| - 1];
      if Accepted(call) && call.t / DAY_MS == day
      then rest + [(call.t, if call.end.Some? && call.end.value >= call.t then call.end.value else call.t)] else rest
  }

  // Every accepted gap() call is stored, once, under its start day, with an end that is never before its
  // start; nothing else is.
  lemma {:induction false} EveryGapIsStored(calls: seq<GapCall>, day: int)
    ensures (if day in FileAll(calls) then FileAll(calls)[day] else []) == FiledUnder(calls, day)
  {
    if calls != [] { EveryGapIsStored(calls[..|calls| - 1], day); }
  }

  // ---- the plain count ----

  predicate InWindow(gap: Interval, windowStart: int, now: int) {
    gap.0 < now && gap.1 >= windowStart
  }

  function CountIn(rows: seq<Interval>, windowStart: int, now: int): nat {
    if rows == [] then 0
    else CountIn(rows[..|rows| - 1], windowStart, now) + if InWindow(rows[|rows| - 1], windowStart, now) then 1 else 0
  }

  lemma {:induction false} CountUniform(rows: seq<Interval>, windowStart: int, now: int, all: bool)
    requires forall i | 0 <= i < |rows| :: InWindow(rows[i], windowStart, now) == all
    ensures CountIn(rows, windowStart, now) == if all then |rows| else 0
  {
    if rows != [] { CountUniform(rows[..|rows| - 1], windowStart, now, all); }
  }

  lemma {:induction false} CountConcat(a: seq<Interval>, b: seq<Interval>, windowStart: int, now: int)
    ensures CountIn(a + b, windowStart, now) == CountIn(a, windowStart, now) + CountIn(b, windowStart, now)
  {
    if b == [] {
      assert a + b == a;
    } else {
      CountConcat(a, b[..|b| - 1], windowStart, now);
      assert (a + b)[..|a + b| - 1] == a + b[..|b| - 1];
    }
  }

  lemma {:induction false} CountInsert(x: Interval, s: seq<Interval>, windowStart: int, now: int)
    ensures CountIn(Insert(x, s), windowStart, now) == CountIn(s, windowStart, now) + CountIn([x], windowStart, now)
  {
    if s == [] {
    } else if PairLeq(x, s[0]) {
      CountConcat([x], s, windowStart, now);
    } else {
      CountInsert(x, s[1..], windowStart, now);
      CountConcat([s[0]], Insert(x, s[1..]), windowStart, now);
      CountConcat([s[0]], s[1..], windowStart, now);
      assert s == [s[0]] + s[1..];
    }
  }

  lemma {:induction false} CountSorted(s: seq<Interval>, windowStart: int, now: int)
    ensures CountIn(SortPairs(s), windowStart, now) == CountIn(s, windowStart, now)
  {
    if s != [] {
      CountSorted(s[..|s| - 1], windowStart, now);
      CountInsert(s[|s| - 1], SortPairs(s[..|s| - 1]), windowStart, now);
      assert CountIn([s[|s| - 1]], windowStart, now) == if InWindow(s[|s| - 1], windowStart, now) then 1 else 0;
    }
  }

  // ---- one pass over a partition's rows ----

  // What the report keeps per partition; the rows themselves stay in the table.
  datatype Stats = Stats(gapCount: nat, minStart: Option<int>, maxEnd: Option<int>, spill: seq<Interval>,
                         merged: seq<Interval>)

  function Spill(rows: seq<Interval>, dayEnd: int): seq<Interval> {
    if rows == [] then []
    else
      var rest, x := Spill(rows[..|rows| - 1], dayEnd), rows[|rows| - 1];
      if x.1 >= dayEnd then rest + [x] else rest
  }

  function LeastStart(rows: seq<Interval>): Option<int> {
    if rows == [] then None
    else
      var rest, x := LeastStart(rows[..|rows| - 1]), rows[|rows| - 1];
      if rest.None? || x.0 < rest.value then Some(x.0) else rest
  }

  function GreatestEnd(rows: seq<Interval>): Option<int> {
    if rows == [] then None
    else
      var rest, x := GreatestEnd(rows[..|rows| - 1]), rows[|rows| - 1];
      if rest.None? || x.1 > rest.value then Some(x.1) else rest
  }

  lemma {:induction false} ExtremesMeaning(rows: seq<Interval>)
    ensures LeastStart(rows).None? <==> rows == []
    ensures GreatestEnd(rows).None? <==> rows == []
    ensures forall i | 0 <= i < |rows| :: LeastStart(rows).value <= rows[i].0 && rows[i].1 <= GreatestEnd(rows).value
  {
    if rows != [] { ExtremesMeaning(rows[..|rows| - 1]); }
  }

  ghost predicate Summarizes(stats: Stats, ordered: seq<Interval>, dayEnd: int) {
    && stats.gapCount == |ordered|
    && stats.minStart == LeastStart(ordered)
    && stats.maxEnd == GreatestEnd(ordered)
    && stats.spill == Spill(ordered, dayEnd)
    && stats.merged == MergeSorted(ordered)
  }

  method ScanGaps(rows: seq<Interval>, dayEnd: int) returns (stats: Stats)
    ensures Summarizes(stats, SortPairs(rows), dayEnd)
    ensures stats.merged == MergeIntervals(rows)
  {
    var ordered := SortPairs(rows);
    stats := Stats(0, None, None, [], []);
    for k := 0 to |ordered|
      invariant Summarizes(stats, ordered[..k], dayEnd)
    {
      stats := ScanOne(stats, ordered[..k], ordered[k], dayEnd);
      assert ordered[..k + 1] == ordered[..k] + [ordered[k]];
    }
    assert ordered[..|ordered|] == ordered;
  }

  method ScanOne(before: Stats, ghost seen: seq<Interval>, row: Interval, dayEnd: int) returns (stats: Stats)
    requires Summarizes(before, seen, dayEnd)
    ensures Summarizes(stats, seen + [row], dayEnd)
  {
    var (s, e) := row;
    var minStart := if before.minStart.None? || s < before.minStart.value then Some(s) else before.minStart;
    var maxEnd := if before.maxEnd.None? || e > before.maxEnd.value then Some(e) else before.maxEnd;
    var spill := if e >= dayEnd then before.spill + [row] else before.spill;
    var merged := before.merged;
    if e > s {
      if merged == [] {
        merged := [row];
      } else if s <= merged[|merged| - 1].1 {
        var last := merged[|merged| - 1];
        merged := merged[..|merged| - 1] + [(last.0, if last.1 > e then last.1 else e)];
      } else {
        merged := merged + [row];
      }
    }
    stats := Stats(before.gapCount + 1, minStart, maxEnd, spill, merged);
    ghost var r := seen + [row];
    assert r[..|r| - 1] == seen && r[|seen|] == row;
  }

  // ---- the case split ----

  datatype Partition = Partition(day: int, finalized: bool, rows: seq<Interval>, stats: Stats)

  ghost predicate PartitionOk(p: Partition) {
    FiledBy(p.day, p.rows) && Summarizes(p.stats, SortPairs(p.rows), DayEnd(p.day))
  }

  lemma {:induction false} SpillCounts(rows: seq<Interval>, dayEnd: int, windowStart: int, now: int)
    requires dayEnd <= windowStart
    ensures CountIn(Spill(rows, dayEnd), windowStart, now) == CountIn(rows, windowStart, now)
  {
    if rows != [] {
      var init := rows[..|rows| - 1];
      SpillCounts(init, dayEnd, windowStart, now);
      assert rows[|rows| - 1].1 >= dayEnd ==> Spill(rows, dayEnd)[..|Spill(init, dayEnd)|] == Spill(init, dayEnd);
    }
  }

  // Which rows a finalized partition contributes, decided without reading them.
  datatype Shortcut = WholeDay | SpillList | NoRows | AllRows | Query | OutsideWindow

  function Choose(p: Partition, windowStart: int, now: int): Shortcut {
    var dayStart, dayEnd := DayStart(p.day), DayEnd(p.day);
    if dayStart >= windowStart && dayEnd <= now then WholeDay
    else if dayEnd <= windowStart then SpillList
    else if dayStart <= windowStart < dayEnd || dayStart < now < dayEnd then
      if p.stats.gapCount == 0 || (p.stats.maxEnd.Some? && p.stats.maxEnd.value < windowStart) then NoRows
      else if p.stats.minStart.Some? && p.stats.minStart.value >= windowStart && dayEnd <= now then AllRows
      else Query
    else OutsideWindow
  }

  function ShortcutCount(p: Partition, windowStart: int, now: int): nat {
    match Choose(p, windowStart, now)
    case WholeDay => p.stats.gapCount
    case SpillList => CountIn(p.stats.spill, windowStart, now)
    case NoRows => 0
    case AllRows => p.stats.gapCount
    case Query => CountIn(p.rows, windowStart, now)
    case OutsideWindow => 0
  }

  lemma SortedIsFiled(day: int, rows: seq<Interval>)
    requires FiledBy(day, rows)
    ensures FiledBy(day, SortPairs(rows))
  {
    var ordered := SortPairs(rows);
    forall i | 0 <= i < |ordered|
      ensures DayStart(day) <= ordered[i].0 < DayEnd(day) && ordered[i].0 <= ordered[i].1
    {
      assert ordered[i] in multiset(rows);
    }
  }

  // Whatever branch is taken, a finalized partition contributes its plain count.
  lemma ShortcutIsPlainCount(p: Partition, windowStart: int, now: int)
    requires PartitionOk(p)
    ensures ShortcutCount(p, windowStart, now) == CountIn(p.rows, windowStart, now)
  {
    var ordered := SortPairs(p.rows);
    CountSorted(p.rows, windowStart, now);
    SortedIsFiled(p.day, p.rows);
    ExtremesMeaning(ordered);
    match Choose(p, windowStart, now)
    case WholeDay => CountUniform(ordered, windowStart, now, true);
    case SpillList => SpillCounts(ordered, DayEnd(p.day), windowStart, now);
    case NoRows => CountUniform(ordered, windowStart, now, false);
    case AllRows => CountUniform(ordered, windowStart, now, true);
    case Query =>
    case OutsideWindow => CountUniform(ordered, windowStart, now, false);
  }

  function AllRowsOf(ps: seq<Partition>): seq<Interval> {
    if ps == [] then [] else AllRowsOf(ps[..|ps| - 1]) + ps[|ps| - 1].rows
  }

  // The report's loop over partitions: the rolling count is the plain count over
  // every gap row of every partition, for every window.
  method RollingCount(ps: seq<Partition>, windowStart: int, now: int) returns (count: nat)
    requires forall i | 0 <= i < |ps| :: PartitionOk(ps[i])
    ensures count == CountIn(AllRowsOf(ps), windowStart, now)
  {
    count := 0;
    for k := 0 to |ps|
      invariant count == CountIn(AllRowsOf(ps[..k]), windowStart, now)
    {
      var p := ps[k];
      assert ps[..k + 1][..k] == ps[..k];
      CountConcat(AllRowsOf(ps[..k]), p.rows, windowStart, now);
      ShortcutIsPlainCount(p, windowStart, now);
      if p.finalized {
        count := count + ShortcutCount(p, windowStart, now);
      } else {
        count := count + CountIn(p.rows, windowStart, now);
      }
    }
    assert ps[..|ps|] == ps;
  }

  // Without the filing rule the whole-day branch is wrong: a row that starts before
  // its partition's day can end before the window and still be counted.
  lemma MisfiledRowIsMiscounted()
    ensures var rows: seq<Interval> := [(-10, -5)];
            var p := Partition(0, true, rows, Stats(1, Some(-10), Some(-5), [], rows));
            !FiledBy(0, rows) && ShortcutCount(p, 0, DAY_MS) != CountIn(rows, 0, DAY_MS)
  {
    var rows: seq<Interval> := [(-10, -5)];
    var p := Partition(0, true, rows, Stats(1, Some(-10), Some(-5), [], rows));
    assert rows[0].0 == -10;
    assert Choose(p, 0, DAY_MS) == WholeDay;
    assert rows[..0] == [] && CountIn(rows, 0, DAY_MS) == 0;
  }
}
