/**
 The data-quality gate of a forward campaign: an append-only log of 15-minute
 slots, the longest run of missed slots, and a collector that refuses to record
 anything once the gate is breached.  One collection is one atomic step.
 */
module ForwardCampaign {
  import opened Options
  import opened Grid

  const CADENCE_MS := 900_000

  datatype Status = SuccessfulScan | MissedDecisionSlot
  datatype Trigger = Scheduled | OtherTrigger
  datatype Health = Ok | Unavailable

  // `payload` stands for the payload hash, which is injective.
  datatype Observation = Observation(
    startedAt: int, status: Status, trigger: Trigger, health: Health, decisionClose: Option<int>, payload: nat)

  // One row per scheduled slot.
  type Log = map<int, Observation>

  datatype Campaign = Campaign(start: int, delayMs: nat, maxMissed: nat)

  ghost predicate ValidCampaign(c: Campaign) {
    Aligned(c.start, CADENCE_MS)
  }

  predicate Successful(o: Observation) {
    && o.status == SuccessfulScan
    && o.trigger == Scheduled
    && o.health == Ok
    && o.decisionClose.Some?
    && o.decisionClose.value < o.startedAt
  }

  // ---- expected slots ----

  // range(start, latest + 1, cadence)
  function ExpectedCount(c: Campaign, now: int): nat {
    var latest := Bucket(now - c.delayMs, CADENCE_MS);
    if latest >= c.start then (latest - c.start) / CADENCE_MS + 1 else 0
  }

  function SlotAt(c: Campaign, k: nat): int {
    c.start + k * CADENCE_MS
  }

  predicate Missed(c: Campaign, log: Log, k: nat) {
    !(SlotAt(c, k) in log && Successful(log[SlotAt(c, k)]))
  }

  // For each expected slot in order, whether it was missed.
  function Misses(c: Campaign, log: Log, now: int): seq<bool> {
    seq(ExpectedCount(c, now), k requires k >= 0 => Missed(c, log, k))
  }

  // ---- the longest run ----

  // The run of misses that reaches the end of the list.
  function Current(misses: seq<bool>): nat {
    if misses == [] || !misses[|misses| - 1] then 0 else Current(misses[..|misses| - 1]) + 1
  }

  function Longest(misses: seq<bool>): nat {
    if misses == [] then 0
    else
      var rest, current := Longest(misses[..|misses| - 1]), Current(misses);
      if current > rest then current else rest
  }

  ghost predicate MissRun(misses: seq<bool>, i: int, j: int) {
    0 <= i <= j <= |misses| && forall k | i <= k < j :: misses[k]
  }

  lemma {:induction false} CurrentIsRun(misses: seq<bool>)
    ensures Current(misses) <= |misses| && MissRun(misses, |misses| - Current(misses), |misses|)
    ensures forall i | MissRun(misses, i, |misses|) :: |misses| - i <= Current(misses)
  {
    if misses != [] {
      var init := misses[..|misses| - 1];
      CurrentIsRun(init);
      forall i | MissRun(misses, i, |misses|) ensures |misses| - i <= Current(misses) {
        if i < |misses| { assert MissRun(init, i, |init|); }
      }
    }
  }

  // The reported number is the length of some run of misses, and no run is longer.
  lemma {:induction false} LongestIsMaximum(misses: seq<bool>)
    ensures exists i, j :: MissRun(misses, i, j) && j - i == Longest(misses)
    ensures forall i, j | MissRun(misses, i, j) :: j - i <= Longest(misses)
  {
    if misses == [] {
      assert MissRun(misses, 0, 0);
    } else {
      var init := misses[..|misses| - 1];
      LongestIsMaximum(init);
      CurrentIsRun(misses);
      if Current(misses) > Longest(init) {
        assert MissRun(misses, |misses| - Current(misses), |misses|);
      } else {
        var i, j :| MissRun(init, i, j) && j - i == Longest(init);
        assert MissRun(misses, i, j);
      }
      forall i, j | MissRun(misses, i, j) ensures j - i <= Longest(misses) {
        if j < |misses| { assert MissRun(init, i, j); }
      }
    }
  }

  lemma {:induction false} LongestGrows(misses: seq<bool>, n: nat)
    requires n <= |misses|
    ensures Longest(misses[..n]) <= Longest(misses)
  {
    if n == |misses| {
      assert misses[..n] == misses;
    } else {
      LongestGrows(misses[..|misses| - 1], n);
      assert misses[..|misses| - 1][..n] == misses[..n];
    }
  }

  // ---- the gate ----

  predicate Terminal(c: Campaign, log: Log, now: int) {
    Longest(Misses(c, log, now)) > c.maxMissed
  }

  lemma ExpectedCountGrows(c: Campaign, now: int, later: int)
    requires now <= later
    ensures ExpectedCount(c, now) <= ExpectedCount(c, later)
  {
    var a, b := (now - c.delayMs) / CADENCE_MS, (later - c.delayMs) / CADENCE_MS;
    assert a <= b;
  }

  lemma {:induction false} LongestWithin(misses: seq<bool>)
    ensures Longest(misses) <= |misses|
  {
    LongestIsMaximum(misses);
    var i, j :| MissRun(misses, i, j) && j - i == Longest(misses);
  }

  // With an unchanged log, terminal stays terminal while no fewer slots are expected.
  lemma TerminalWithMoreExpected(c: Campaign, log: Log, now: int, other: int)
    requires ExpectedCount(c, now) <= ExpectedCount(c, other) && Terminal(c, log, now)
    ensures Terminal(c, log, other)
  {
    LongestGrows(Misses(c, log, other), ExpectedCount(c, now));
    assert Misses(c, log, other)[..ExpectedCount(c, now)] == Misses(c, log, now);
  }

  function SlotsBefore(c: Campaign, n: nat): set<int> {
    set k: nat | k < n :: SlotAt(c, k)
  }

  // Everything before slot n recorded as a successful scan, nothing after it.
  function SuccessesBefore(c: Campaign, n: nat): Log {
    map slot | slot in SlotsBefore(c, n) :: Observation(0, SuccessfulScan, Scheduled, Ok, Some(-1), 0)
  }

  lemma SuccessesBeforeMeaning(c: Campaign, n: nat, k: nat)
    ensures Missed(c, SuccessesBefore(c, n), k) <==> k >= n
  {
    if SlotAt(c, k) in SlotsBefore(c, n) {
      var j: nat :| j < n && SlotAt(c, j) == SlotAt(c, k);
      assert j == k;
    }
  }

  // Then the misses are exactly the expected slots from n on.
  lemma SuccessesBeforeLongest(c: Campaign, n: nat, now: int)
    ensures Longest(Misses(c, SuccessesBefore(c, n), now))
         == if ExpectedCount(c, now) > n then ExpectedCount(c, now) - n else 0
  {
    var misses := Misses(c, SuccessesBefore(c, n), now);
    forall k | 0 <= k < |misses| ensures misses[k] <==> k >= n { SuccessesBeforeMeaning(c, n, k); }
    LongestIsMaximum(misses);
    var i, j :| MissRun(misses, i, j) && j - i == Longest(misses);
    if i < j { assert misses[i]; }
    if |misses| > n { assert MissRun(misses, n, |misses|); }
  }

  // The log that a rollback from t to `other` revives: the last slots due at t are missed, one more than allowed.
  lemma RollbackLog(c: Campaign, t: int, other: int, n: nat)
    requires ExpectedCount(c, other) < ExpectedCount(c, t) && n == ExpectedCount(c, t) - c.maxMissed - 1
    ensures Terminal(c, SuccessesBefore(c, n), t) && !Terminal(c, SuccessesBefore(c, n), other)
  {
    SuccessesBeforeLongest(c, n, t);
    SuccessesBeforeLongest(c, n, other);
  }

  // When every log that is terminal at t is terminal at another time too.
  predicate StaysTerminal(c: Campaign, t: int, other: int) {
    ExpectedCount(c, other) >= ExpectedCount(c, t) || ExpectedCount(c, t) <= c.maxMissed
  }

  // The gate's verdict carries over from t to another time, for every log, if and only if no fewer slots
  // are expected then, or so few are expected at t that the gate cannot be breached at all.
  lemma TerminalCarriesOverExactly(c: Campaign, t: int, other: int)
    ensures (forall log | Terminal(c, log, t) :: Terminal(c, log, other)) <==> StaysTerminal(c, t, other)
  {
    if StaysTerminal(c, t, other) {
      forall log | Terminal(c, log, t) ensures Terminal(c, log, other) {
        LongestWithin(Misses(c, log, t));
        TerminalWithMoreExpected(c, log, t, other);
      }
    } else {
      RollbackLog(c, t, other, ExpectedCount(c, t) - c.maxMissed - 1);
    }
  }

  // ---- collecting ----

  datatype Store = Store(log: Log, duplicateEvents: nat)

  datatype AppendResult = Appended | Duplicate | AppendConflict

  // A conflicting row raises, and the raise rolls its integrity event back.
  function Append(s: Store, slot: int, o: Observation): (Store, AppendResult) {
    if slot !in s.log then (s.(log := s.log[slot := o]), Appended)
    else if s.log[slot].payload == o.payload then (s.(duplicateEvents := s.duplicateEvents + 1), Duplicate)
    else (s, AppendConflict)
  }

  datatype CollectResult = NotStarted | TerminalCampaign | VersionMismatch | Recorded(append: AppendResult)

  function Collect(c: Campaign, s: Store, started: int, compatible: bool, o: Observation): (Store, CollectResult) {
    var slot := Bucket(started, CADENCE_MS);
    if slot < c.start then (s, NotStarted)
    else if Terminal(c, s.log, started) then (s, TerminalCampaign)
    else if !compatible then (s, VersionMismatch)
    else var (after, r) := Append(s, slot, o.(startedAt := started)); (after, Recorded(r))
  }

  datatype Call = Call(started: int, compatible: bool, observation: Observation)

  function Run(c: Campaign, s: Store, calls: seq<Call>): Store {
    if calls == [] then s
    else
      var call := calls[|calls| - 1];
      Collect(c, Run(c, s, calls[..|calls| - 1]), call.started, call.compatible, call.observation).0
  }

  // The outcome of a collection: before the start, terminal, or with other versions it is refused, in this
  // order, and the store stays; otherwise an empty slot is recorded, a repeated payload only counted, and
  // another payload rejected without a trace.
  lemma CollectedExactly(c: Campaign, s: Store, started: int, compatible: bool, o: Observation, slot: int)
    requires Aligned(slot, CADENCE_MS) && slot <= started < slot + CADENCE_MS
    ensures var (after, r) := Collect(c, s, started, compatible, o);
            var row := o.(startedAt := started);
            && (slot < c.start ==> after == s && r == NotStarted)
            && (slot >= c.start && Terminal(c, s.log, started) ==> after == s && r == TerminalCampaign)
            && (slot >= c.start && !Terminal(c, s.log, started) && !compatible ==> after == s && r == VersionMismatch)
            && (slot >= c.start && !Terminal(c, s.log, started) && compatible ==>
                  && (slot !in s.log ==>
                        after == Store(s.log[slot := row], s.duplicateEvents) && r == Recorded(Appended))
                  && (slot in s.log && s.log[slot].payload == o.payload ==>
                        after == Store(s.log, s.duplicateEvents + 1) && r == Recorded(Duplicate))
                  && (slot in s.log && s.log[slot].payload != o.payload ==>
                        after == s && r == Recorded(AppendConflict)))
  {
    BucketIsAligned(started, CADENCE_MS);
    NextAligned(slot, Bucket(started, CADENCE_MS), CADENCE_MS);
    NextAligned(Bucket(started, CADENCE_MS), slot, CADENCE_MS);
  }

  // A recorded slot still counts as missed unless a healthy scheduled scan decided on a bar that had closed
  // before it started.
  lemma RecordedSlotIsMissedUnless(c: Campaign, log: Log, k: nat, o: Observation)
    requires SlotAt(c, k) in log && log[SlotAt(c, k)] == o
    ensures Missed(c, log, k)
       <==> || o.status == MissedDecisionSlot || o.trigger == OtherTrigger || o.health == Unavailable
            || o.decisionClose == None || o.startedAt <= o.decisionClose.value
  {
  }

  // A recorded slot is never replaced or removed.
  lemma {:induction false} LogIsAppendOnly(c: Campaign, s: Store, calls: seq<Call>)
    ensures forall slot | slot in s.log :: slot in Run(c, s, calls).log && Run(c, s, calls).log[slot] == s.log[slot]
  {
    if calls != [] { LogIsAppendOnly(c, s, calls[..|calls| - 1]); }
  }

  // Whatever is offered at this time, the collector leaves the store as it is.
  ghost predicate Refuses(c: Campaign, s: Store, started: int) {
    forall compatible, o :: Collect(c, s, started, compatible, o).0 == s
  }

  lemma TerminalIsRefused(c: Campaign, s: Store, t: int, started: int)
    requires Terminal(c, s.log, t)
    requires Bucket(started, CADENCE_MS) < c.start || StaysTerminal(c, t, started)
    ensures Refuses(c, s, started)
  {
    if StaysTerminal(c, t, started) { TerminalCarriesOverExactly(c, t, started); }
  }

  // A store the collector does not hold to be terminal can be written.
  lemma OpenGateWrites(c: Campaign, s: Store, started: int)
    requires Bucket(started, CADENCE_MS) >= c.start && !Terminal(c, s.log, started)
    ensures !Refuses(c, s, started)
  {
    var slot := Bucket(started, CADENCE_MS);
    var payload := if slot in s.log then s.log[slot].payload else 0;
    var o := Observation(0, SuccessfulScan, Scheduled, Ok, None, payload);
    var after := Collect(c, s, started, true, o).0;
    assert after.duplicateEvents != s.duplicateEvents || slot in after.log;
    assert after != s;
  }

  // A collection at `started` leaves every store alone that is terminal at t, if and only if it comes
  // before the campaign's start or the verdict carries over to it.
  lemma CollectorRefusesExactly(c: Campaign, t: int, started: int)
    ensures (forall s: Store | Terminal(c, s.log, t) :: Refuses(c, s, started))
       <==> Bucket(started, CADENCE_MS) < c.start || StaysTerminal(c, t, started)
  {
    if Bucket(started, CADENCE_MS) < c.start || StaysTerminal(c, t, started) {
      forall s: Store | Terminal(c, s.log, t) ensures Refuses(c, s, started) { TerminalIsRefused(c, s, t, started); }
    } else {
      var n := ExpectedCount(c, t) - c.maxMissed - 1;
      var s := Store(SuccessesBefore(c, n), 0);
      RollbackLog(c, t, started, n);
      OpenGateWrites(c, s, started);
    }
  }

  // A run of collections each of which is refused on that ground changes nothing.
  lemma {:induction false} RefusedRunChangesNothing(c: Campaign, s: Store, t: int, calls: seq<Call>)
    requires Terminal(c, s.log, t)
    requires forall i | 0 <= i < |calls| ::
               Bucket(calls[i].started, CADENCE_MS) < c.start || StaysTerminal(c, t, calls[i].started)
    ensures Run(c, s, calls) == s
  {
    if calls != [] {
      RefusedRunChangesNothing(c, s, t, calls[..|calls| - 1]);
      TerminalIsRefused(c, s, t, calls[|calls| - 1].started);
    }
  }

  // Once terminal at time t, with a clock that does not run backwards, the collector never
  // changes the store again and the campaign is terminal at every later time.
  lemma TerminalIsIrreversible(c: Campaign, s: Store, t: int, calls: seq<Call>, later: int)
    requires Terminal(c, s.log, t) && t <= later
    requires forall i | 0 <= i < |calls| :: t <= calls[i].started
    ensures Run(c, s, calls) == s
    ensures Terminal(c, Run(c, s, calls).log, later)
  {
    ExpectedCountGrows(c, t, later);
    TerminalWithMoreExpected(c, s.log, t, later);
    forall i | 0 <= i < |calls| ensures StaysTerminal(c, t, calls[i].started) {
      ExpectedCountGrows(c, t, calls[i].started);
    }
    RefusedRunChangesNothing(c, s, t, calls);
  }

  // A rollback that reopens the gate lets the collector record the missed slot, and the campaign
  // that was terminal at t no longer is: here with nothing allowed to be missed and one slot due.
  lemma ClockRollbackRevives(c: Campaign, t: int, started: int, o: Observation)
    requires ValidCampaign(c) && c.maxMissed == 0 && c.delayMs > 0
    requires started == c.start && c.start + c.delayMs <= t < c.start + c.delayMs + CADENCE_MS
    requires Successful(o.(startedAt := started))
    ensures Terminal(c, map[], t)
    ensures Collect(c, Store(map[], 0), started, true, o)
         == (Store(map[started := o.(startedAt := started)], 0), Recorded(Appended))
    ensures !Terminal(c, map[started := o.(startedAt := started)], t)
  {
    var log: Log := map[started := o.(startedAt := started)];
    FirstSlotDue(c, t, started);
    var before, after := Misses(c, map[], t), Misses(c, log, t);
    assert SlotAt(c, 0) == started;
    assert before[0] && !after[0];
    LongestIsMaximum(before);
    assert MissRun(before, 0, 1);
    LongestIsMaximum(after);
    var i, j :| MissRun(after, i, j) && j - i == Longest(after);
    LongestWithin(Misses(c, map[], started));
  }

  lemma FirstSlotDue(c: Campaign, t: int, started: int)
    requires ValidCampaign(c) && c.delayMs > 0
    requires started == c.start && c.start + c.delayMs <= t < c.start + c.delayMs + CADENCE_MS
    ensures ExpectedCount(c, t) == 1 && ExpectedCount(c, started) == 0 && Bucket(started, CADENCE_MS) == started
  {
    BucketIsAligned(started, CADENCE_MS);
    BucketIsAligned(t - c.delayMs, CADENCE_MS);
    BucketIsAligned(started - c.delayMs, CADENCE_MS);
    var latest := Bucket(t - c.delayMs, CADENCE_MS);
    NextAligned(latest, c.start, CADENCE_MS);
    NextAligned(c.start, latest, CADENCE_MS);
  }

  // ---- the expected slots are the grid from the start to the latest due boundary ----

  lemma ExpectedSlots(c: Campaign, now: int, slot: int)
    requires ValidCampaign(c)
    ensures (exists k: nat | k < ExpectedCount(c, now) :: SlotAt(c, k) == slot)
       <==> c.start <= slot <= now - c.delayMs && Aligned(slot, CADENCE_MS)
  {
    var due := now - c.delayMs;
    BucketIsAligned(due, CADENCE_MS);
    var latest := Bucket(due, CADENCE_MS);
    DivisionOf(c.start, CADENCE_MS);
    if exists k: nat | k < ExpectedCount(c, now) :: SlotAt(c, k) == slot {
      var k: nat :| k < ExpectedCount(c, now) && SlotAt(c, k) == slot;
      MultipleIsAligned(c.start / CADENCE_MS + k, CADENCE_MS);
    }
    if c.start <= slot <= due && Aligned(slot, CADENCE_MS) {
      DivisionOf(slot, CADENCE_MS);
      var k := slot / CADENCE_MS - c.start / CADENCE_MS;
      assert SlotAt(c, k) == slot;
      assert slot <= latest by {
        if latest < slot { NextAligned(latest, slot, CADENCE_MS); }
      }
    }
  }

  // ---- the loops ----

  datatype Metrics = Metrics(expected: nat, successful: nat, recordedMissed: nat, missing: nat, longest: nat,
                             terminal: bool)

  method DataQualityMetrics(c: Campaign, log: Log, now: int) returns (m: Metrics)
    ensures m.expected == ExpectedCount(c, now)
    ensures m.expected == m.successful + m.recordedMissed + m.missing
    ensures m.longest == Longest(Misses(c, log, now))
    ensures m.terminal <==> Terminal(c, log, now)
    ensures m.successful == |set k: nat | k < ExpectedCount(c, now) && !Missed(c, log, k)|
    ensures m.missing == |set k: nat | k < ExpectedCount(c, now) && SlotAt(c, k) !in log|
  {
    var n := ExpectedCount(c, now);
    ghost var misses := Misses(c, log, now);
    var longest: nat, current: nat := 0, 0;
    var successful: nat, recordedMissed: nat, missing: nat := 0, 0, 0;
    for k := 0 to n
      invariant current == Current(misses[..k]) && longest == Longest(misses[..k])
      invariant successful + recordedMissed + missing == k
      invariant successful == |set i: nat | i < k && !Missed(c, log, i)|
      invariant missing == |set i: nat | i < k && SlotAt(c, i) !in log|
    {
      var slot := SlotAt(c, k);
      assert misses[..k + 1][..k] == misses[..k];
      GrowCounts(c, log, k);
      if slot in log && Successful(log[slot]) {
        current := 0;
        successful := successful + 1;
      } else {
        current := current + 1;
        longest := if longest > current then longest else current;
        if slot in log { recordedMissed := recordedMissed + 1; } else { missing := missing + 1; }
      }
    }
    assert misses[..n] == misses;
    m := Metrics(n, successful, recordedMissed, missing, longest, longest > c.maxMissed);
  }

  lemma GrowCounts(c: Campaign, log: Log, k: nat)
    ensures |set i: nat | i < k + 1 && !Missed(c, log, i)|
         == |set i: nat | i < k && !Missed(c, log, i)| + if Missed(c, log, k) then 0 else 1
    ensures |set i: nat | i < k + 1 && SlotAt(c, i) !in log|
         == |set i: nat | i < k && SlotAt(c, i) !in log| + if SlotAt(c, k) in log then 0 else 1
  {
    var a, b := set i: nat | i < k && !Missed(c, log, i), set i: nat | i < k && SlotAt(c, i) !in log;
    assert (set i: nat | i < k + 1 && !Missed(c, log, i)) == if Missed(c, log, k) then a else a + {k};
    assert (set i: nat | i < k + 1 && SlotAt(c, i) !in log) == if SlotAt(c, k) in log then b else b + {k};
  }

  class ForwardStore {
    var log: Log
    var duplicateEvents: nat

    ghost function Contents(): Store
      reads this
    {
      Store(log, duplicateEvents)
    }

    constructor ()
      ensures Contents() == Store(map[], 0)
    {
      log, duplicateEvents := map[], 0;
    }

    method AppendObservation(slot: int, o: Observation) returns (r: AppendResult)
      modifies this
      ensures (Contents(), r) == Append(old(Contents()), slot, o)
    {
      if slot in log {
        if log[slot].payload != o.payload {
          return AppendConflict;
        }
        duplicateEvents := duplicateEvents + 1;
        return Duplicate;
      }
      log := log[slot := o];
      return Appended;
    }

    method CollectOnce(c: Campaign, started: int, compatible: bool, o: Observation) returns (r: CollectResult)
      modifies this
      ensures (Contents(), r) == Collect(c, old(Contents()), started, compatible, o)
    {
      var slot := Bucket(started, CADENCE_MS);
      if slot < c.start {
        return NotStarted;
      }
      var quality := DataQualityMetrics(c, log, started);
      if quality.terminal {
        return TerminalCampaign;
      }
      if !compatible {
        return VersionMismatch;
      }
      var append := AppendObservation(slot, o.(startedAt := started));
      return Recorded(append);
    }
  }
}
