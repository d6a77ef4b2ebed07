/**
 The lease protocol of one partition: capture processes start an instance,
 heartbeat, open and close stream segments, and any process may orphan an
 instance whose lease ran out.  Orphaning is one transaction and each gap it
 owes is another, so a recovery can be cut off between them; a change of depth
 state closes in one transaction and opens in another; otherwise a call is one
 step on the tables.  An SQL UPDATE is a rewrite of every matching row.
 */
module Lease {
  import opened Options
  import opened Grid
  import opened Moments

  type Id = nat

  datatype Stream = Depth | Trade

  datatype InstanceStatus = Active | InstanceClosed | InstanceOrphaned

  datatype Instance = Instance(id: Id, start: int, lastHeartbeat: int, end: Option<int>, status: InstanceStatus)

  datatype SessionStatus = Connected | SessionClosed | SessionOrphaned

  datatype Session = Session(stream: Stream, start: int, end: Option<int>, status: SessionStatus, instance: Id,
                             lastHeartbeat: int)

  datatype SegmentStatus = Open | Closed | Orphaned

  datatype Segment = Segment(instance: Id, stream: Stream, start: int, end: int, sequenceValid: bool,
                             status: SegmentStatus)

  // A PROCESS_OR_HOST_GAP row and the instance it names.
  datatype LeaseGap = LeaseGap(start: int, end: int, orphan: Id)

  datatype Tables = Tables(instances: seq<Instance>, sessions: map<Id, Session>, segments: seq<Segment>,
                           gaps: seq<LeaseGap>)

  const EMPTY := Tables([], map[], [], [])

  // ---- the UPDATE statements ----

  // Segments of one instance (and one stream, if given) that are OPEN get a new end and status.
  function SetOpenSegments(segments: seq<Segment>, id: Id, stream: Option<Stream>, end: int,
                           status: SegmentStatus): seq<Segment> {
    seq(|segments|, i requires 0 <= i < |segments| =>
      var s := segments[i];
      if s.instance == id && s.status == Open && (stream.None? || s.stream == stream.value)
      then s.(end := end, status := status) else s)
  }

  function EndSessions(sessions: map<Id, Session>, id: Id, end: int, status: SessionStatus): map<Id, Session> {
    map sid | sid in sessions ::
      if sessions[sid].instance == id && sessions[sid].end.None?
      then sessions[sid].(end := Some(end), status := status) else sessions[sid]
  }

  function TouchSessions(sessions: map<Id, Session>, id: Id, now: int): map<Id, Session> {
    map sid | sid in sessions ::
      if sessions[sid].instance == id && sessions[sid].end.None?
      then sessions[sid].(lastHeartbeat := now) else sessions[sid]
  }

  function OrphanInstance(instances: seq<Instance>, id: Id, end: int): seq<Instance> {
    seq(|instances|, i requires 0 <= i < |instances| =>
      if instances[i].id == id then instances[i].(end := Some(end), status := InstanceOrphaned) else instances[i])
  }

  function TouchActive(instances: seq<Instance>, id: Id, now: int): seq<Instance> {
    seq(|instances|, i requires 0 <= i < |instances| =>
      if instances[i].id == id && instances[i].status == Active
      then instances[i].(lastHeartbeat := now) else instances[i])
  }

  function CloseActive(instances: seq<Instance>, id: Id, now: int): seq<Instance> {
    seq(|instances|, i requires 0 <= i < |instances| =>
      if instances[i].id == id && instances[i].status == Active
      then instances[i].(end := Some(now), status := InstanceClosed) else instances[i])
  }

  // ---- the calls ----

  predicate Expired(i: Instance, now: int, timeout: int, exclude: Option<Id>) {
    i.status == Active && i.lastHeartbeat < now - timeout && (exclude.None? || i.id != exclude.value)
  }

  // The SELECT: expired rows in table order.
  function ExpiredRows(instances: seq<Instance>, now: int, timeout: int, exclude: Option<Id>): seq<Instance> {
    if instances == [] then []
    else
      var rest, i := ExpiredRows(instances[..|instances| - 1], now, timeout, exclude), instances[|instances| - 1];
      if Expired(i, now, timeout, exclude) then rest + [i] else rest
  }

  function LeaseEnd(row: Instance, timeout: int): int {
    row.lastHeartbeat + timeout
  }

  function OrphanOne(t: Tables, row: Instance, timeout: int): Tables {
    var end := LeaseEnd(row, timeout);
    t.(instances := OrphanInstance(t.instances, row.id, end),
       sessions := EndSessions(t.sessions, row.id, end, SessionOrphaned),
       segments := SetOpenSegments(t.segments, row.id, None, end, Orphaned))
  }

  function OrphanAll(t: Tables, rows: seq<Instance>, timeout: int): Tables {
    if rows == [] then t else OrphanOne(OrphanAll(t, rows[..|rows| - 1], timeout), rows[|rows| - 1], timeout)
  }

  function LeaseGaps(rows: seq<Instance>, now: int, timeout: int): seq<LeaseGap> {
    seq(|rows|, i requires 0 <= i < |rows| => LeaseGap(LeaseEnd(rows[i], timeout), now, rows[i].id))
  }

  // How writing the gaps of a recovery ends.  It stops when a gap is refused or the process dies; a
  // refusal that is an OperationalError is caught by the heartbeat, which then carries on.
  datatype GapWriting = AllWritten | Stopped(written: nat, caught: bool)

  function Written(rows: nat, w: GapWriting): (n: nat)
    ensures n <= rows
  {
    if w.Stopped? && w.written < rows then w.written else rows
  }

  // The orphans are committed first, then one gap after another.
  function Recover(t: Tables, now: int, timeout: int, exclude: Option<Id>, w: GapWriting): Tables {
    var rows := ExpiredRows(t.instances, now, timeout, exclude);
    var after := OrphanAll(t, rows, timeout);
    after.(gaps := after.gaps + LeaseGaps(rows, now, timeout)[..Written(|rows|, w)])
  }

  // The recovery stopped before it had written every gap.
  predicate CutOff(t: Tables, now: int, timeout: int, exclude: Option<Id>, w: GapWriting) {
    w.Stopped? && w.written < |ExpiredRows(t.instances, now, timeout, exclude)|
  }

  predicate HasInstance(instances: seq<Instance>, id: Id) {
    exists i | 0 <= i < |instances| :: instances[i].id == id
  }

  // A taken id is refused by the primary key; the recovery before it stays committed.
  function StartInstance(t: Tables, now: int, timeout: int, id: Id, w: GapWriting): Tables {
    var after := Recover(t, now, timeout, None, w);
    if CutOff(t, now, timeout, None, w) || HasInstance(after.instances, id) then after
    else after.(instances := after.instances + [Instance(id, now, now, None, Active)])
  }

  function StartSession(t: Tables, now: int, sid: Id, stream: Stream, id: Id): Tables {
    if sid in t.sessions then t
    else t.(sessions := t.sessions[sid := Session(stream, now, None, Connected, id, now)],
            segments := t.segments + [Segment(id, stream, now, now, stream == Trade, Open)])
  }

  // The recovery at the start of a heartbeat ended it.
  predicate Aborted(t: Tables, now: int, timeout: int, id: Id, w: GapWriting) {
    CutOff(t, now, timeout, Some(id), w) && !w.caught
  }

  function Heartbeat(t: Tables, now: int, timeout: int, id: Id, w: GapWriting): Tables {
    var after := Recover(t, now, timeout, Some(id), w);
    if Aborted(t, now, timeout, id, w) then after
    else after.(instances := TouchActive(after.instances, id, now),
                sessions := TouchSessions(after.sessions, id, now),
                segments := SetOpenSegments(after.segments, id, None, now, Open))
  }

  // The closing is committed before the new segment; the process may die or be refused in between.
  function DepthState(t: Tables, now: int, id: Id, valid: bool, inserted: bool): Tables {
    t.(segments := SetOpenSegments(t.segments, id, Some(Depth), now, Closed)
       + if inserted then [Segment(id, Depth, now, now, valid, Open)] else [])
  }

  // An already ended session is overwritten.
  function EndSession(t: Tables, now: int, sid: Id): Tables {
    if sid !in t.sessions then t
    else
      var row := t.sessions[sid];
      t.(sessions := t.sessions[sid := row.(end := Some(now), status := SessionClosed)],
         segments := SetOpenSegments(t.segments, row.instance, Some(row.stream), now, Closed))
  }

  function EndInstance(t: Tables, now: int, timeout: int, id: Id, w: GapWriting): Tables {
    var after := Heartbeat(t, now, timeout, id, w);
    if Aborted(t, now, timeout, id, w) then after
    else after.(instances := CloseActive(after.instances, id, now),
                sessions := EndSessions(after.sessions, id, now, SessionClosed),
                segments := SetOpenSegments(after.segments, id, None, now, Closed))
  }

  datatype Call =
    | RecoverCall(exclude: Option<Id>, w: GapWriting)
    | StartInstanceCall(id: Id, w: GapWriting)
    | StartSessionCall(sid: Id, stream: Stream, id: Id)
    | HeartbeatCall(id: Id, w: GapWriting)
    | DepthStateCall(id: Id, valid: bool, inserted: bool)
    | EndSessionCall(sid: Id)
    | EndInstanceCall(id: Id, w: GapWriting)

  function Do(t: Tables, now: int, timeout: int, call: Call): Tables {
    match call
    case RecoverCall(exclude, w) => Recover(t, now, timeout, exclude, w)
    case StartInstanceCall(id, w) => StartInstance(t, now, timeout, id, w)
    case StartSessionCall(sid, stream, id) => StartSession(t, now, sid, stream, id)
    case HeartbeatCall(id, w) => Heartbeat(t, now, timeout, id, w)
    case DepthStateCall(id, valid, inserted) => DepthState(t, now, id, valid, inserted)
    case EndSessionCall(sid) => EndSession(t, now, sid)
    case EndInstanceCall(id, w) => EndInstance(t, now, timeout, id, w)
  }

  // ---- what one call keeps ----

  ghost predicate DistinctIds(instances: seq<Instance>) {
    forall i, j | 0 <= i < j < |instances| :: instances[i].id != instances[j].id
  }

  // Ended rows are frozen, and no row disappears or changes identity.
  ghost predicate KeepsSegments(a: seq<Segment>, b: seq<Segment>) {
    && |a| <= |b|
    && (forall i | 0 <= i < |a| :: a[i].status != Open ==> b[i] == a[i])
    && (forall i | 0 <= i < |a| :: b[i] == a[i].(end := b[i].end, status := b[i].status))
  }

  ghost predicate KeepsInstances(a: seq<Instance>, b: seq<Instance>) {
    && |a| <= |b|
    && (forall i | 0 <= i < |a| :: a[i].status != Active ==> b[i] == a[i])
    && (forall i | 0 <= i < |a| :: b[i].id == a[i].id && b[i].start == a[i].start)
  }

  lemma {:induction false} ExpiredRowsMeaning(instances: seq<Instance>, now: int, timeout: int, exclude: Option<Id>)
    requires DistinctIds(instances)
    ensures var rows := ExpiredRows(instances, now, timeout, exclude);
            && (forall k | 0 <= k < |rows| :: rows[k] in instances && Expired(rows[k], now, timeout, exclude))
            && (forall i | 0 <= i < |instances| ::
                  Expired(instances[i], now, timeout, exclude) ==> instances[i] in rows)
            && DistinctIds(rows)
  {
    if instances != [] {
      var init, last := instances[..|instances| - 1], instances[|instances| - 1];
      ExpiredRowsMeaning(init, now, timeout, exclude);
      var rest := ExpiredRows(init, now, timeout, exclude);
      forall k | 0 <= k < |rest| ensures rest[k] in instances && rest[k].id != last.id {
        assert rest[k] in init;
      }
    }
  }

  // What orphaning a list of distinct rows does to every instance row.
  lemma {:induction false} OrphanAllInstances(t: Tables, rows: seq<Instance>, timeout: int, i: int)
    requires 0 <= i < |t.instances| && DistinctIds(rows)
    ensures |OrphanAll(t, rows, timeout).instances| == |t.instances|
    ensures var after := OrphanAll(t, rows, timeout).instances[i];
            && ((forall k | 0 <= k < |rows| :: rows[k].id != t.instances[i].id) ==> after == t.instances[i])
            && (forall k | 0 <= k < |rows| && rows[k].id == t.instances[i].id ::
                  after == t.instances[i].(end := Some(LeaseEnd(rows[k], timeout)), status := InstanceOrphaned))
  {
    if rows != [] {
      OrphanAllInstances(t, rows[..|rows| - 1], timeout, i);
    }
  }

  // What it does to every segment row.
  lemma {:induction false} OrphanAllSegments(t: Tables, rows: seq<Instance>, timeout: int, i: int)
    requires 0 <= i < |t.segments| && DistinctIds(rows)
    ensures |OrphanAll(t, rows, timeout).segments| == |t.segments|
    ensures OrphanAll(t, rows, timeout).gaps == t.gaps
    ensures var before, after := t.segments[i], OrphanAll(t, rows, timeout).segments[i];
            && (before.status != Open || (forall k | 0 <= k < |rows| :: rows[k].id != before.instance) ==>
                  after == before)
            && (forall k | 0 <= k < |rows| && rows[k].id == before.instance && before.status == Open ::
                  after == before.(end := LeaseEnd(rows[k], timeout), status := Orphaned))
  {
    if rows != [] {
      OrphanAllSegments(t, rows[..|rows| - 1], timeout, i);
    }
  }

  lemma {:induction false} OrphanAllKeepsRest(t: Tables, rows: seq<Instance>, timeout: int)
    ensures OrphanAll(t, rows, timeout).gaps == t.gaps
    ensures |OrphanAll(t, rows, timeout).segments| == |t.segments|
    ensures |OrphanAll(t, rows, timeout).instances| == |t.instances|
  {
    if rows != [] { OrphanAllKeepsRest(t, rows[..|rows| - 1], timeout); }
  }

  lemma RecoverKeeps(t: Tables, now: int, timeout: int, exclude: Option<Id>, w: GapWriting)
    requires DistinctIds(t.instances)
    ensures KeepsSegments(t.segments, Recover(t, now, timeout, exclude, w).segments)
    ensures KeepsInstances(t.instances, Recover(t, now, timeout, exclude, w).instances)
    ensures |Recover(t, now, timeout, exclude, w).instances| == |t.instances|
    ensures DistinctIds(Recover(t, now, timeout, exclude, w).instances)
  {
    var rows := ExpiredRows(t.instances, now, timeout, exclude);
    var after := Recover(t, now, timeout, exclude, w);
    ExpiredRowsMeaning(t.instances, now, timeout, exclude);
    OrphanAllKeepsRest(t, rows, timeout);
    forall i | 0 <= i < |t.segments|
      ensures t.segments[i].status != Open ==> after.segments[i] == t.segments[i]
      ensures after.segments[i] == t.segments[i].(end := after.segments[i].end, status := after.segments[i].status)
    {
      OrphanAllSegments(t, rows, timeout, i);
    }
    forall i | 0 <= i < |t.instances|
      ensures t.instances[i].status != Active ==> after.instances[i] == t.instances[i]
      ensures after.instances[i].id == t.instances[i].id && after.instances[i].start == t.instances[i].start
    {
      OrphanAllInstances(t, rows, timeout, i);
      RowOrNot(t.instances, rows, i, now, timeout, exclude);
    }
  }

  // An instance row is either untouched by recovery or is itself one of the expired rows.
  lemma RowOrNot(instances: seq<Instance>, rows: seq<Instance>, i: int, now: int, timeout: int, exclude: Option<Id>)
    requires DistinctIds(instances) && 0 <= i < |instances|
    requires forall k | 0 <= k < |rows| :: rows[k] in instances && Expired(rows[k], now, timeout, exclude)
    ensures forall k | 0 <= k < |rows| && rows[k].id == instances[i].id :: rows[k] == instances[i]
  {
    forall k | 0 <= k < |rows| && rows[k].id == instances[i].id ensures rows[k] == instances[i] {
      var j :| 0 <= j < |instances| && instances[j] == rows[k];
    }
  }

  // Each newly orphaned instance's OPEN segments are closed where its lease ended, and if its gap
  // is written, that gap has positive length and runs from there to now.
  lemma OrphaningLeavesOneGap(t: Tables, now: int, timeout: int, exclude: Option<Id>, w: GapWriting, i: int)
    requires DistinctIds(t.instances) && 0 <= i < |t.instances| && Expired(t.instances[i], now, timeout, exclude)
    ensures var row, after := t.instances[i], Recover(t, now, timeout, exclude, w);
            && |after.instances| == |t.instances| && |after.segments| == |t.segments|
            && after.instances[i] == row.(end := Some(LeaseEnd(row, timeout)), status := InstanceOrphaned)
            && LeaseEnd(row, timeout) < now
            && (!CutOff(t, now, timeout, exclude, w) ==>
                  exists g | |t.gaps| <= g < |after.gaps| ::
                    after.gaps[g] == LeaseGap(LeaseEnd(row, timeout), now, row.id))
            && (forall s | 0 <= s < |t.segments| && t.segments[s].instance == row.id && t.segments[s].status == Open ::
                  after.segments[s] == t.segments[s].(end := LeaseEnd(row, timeout), status := Orphaned))
  {
    var row, after := t.instances[i], Recover(t, now, timeout, exclude, w);
    var rows := ExpiredRows(t.instances, now, timeout, exclude);
    ExpiredRowsMeaning(t.instances, now, timeout, exclude);
    OrphanAllKeepsRest(t, rows, timeout);
    var k :| 0 <= k < |rows| && rows[k] == row;
    OrphanAllInstances(t, rows, timeout, i);
    if !CutOff(t, now, timeout, exclude, w) {
      assert after.gaps[|t.gaps| + k] == LeaseGap(LeaseEnd(row, timeout), now, row.id);
    }
    forall s | 0 <= s < |t.segments| && t.segments[s].instance == row.id && t.segments[s].status == Open
      ensures after.segments[s] == t.segments[s].(end := LeaseEnd(row, timeout), status := Orphaned)
    {
      OrphanAllSegments(t, rows, timeout, s);
      assert rows[k].id == t.segments[s].instance;
    }
  }

  // A live instance that heartbeats stays ACTIVE, with its lease renewed unless the heartbeat was aborted.
  lemma HeartbeatNeverOrphansItsCaller(t: Tables, now: int, timeout: int, id: Id, w: GapWriting, i: int)
    requires DistinctIds(t.instances) && 0 <= i < |t.instances|
    requires t.instances[i].id == id && t.instances[i].status == Active
    ensures |Heartbeat(t, now, timeout, id, w).instances| == |t.instances|
    ensures Heartbeat(t, now, timeout, id, w).instances[i]
         == if Aborted(t, now, timeout, id, w) then t.instances[i] else t.instances[i].(lastHeartbeat := now)
  {
    var rows := ExpiredRows(t.instances, now, timeout, Some(id));
    ExpiredRowsMeaning(t.instances, now, timeout, Some(id));
    OrphanAllKeepsRest(t, rows, timeout);
    OrphanAllInstances(t, rows, timeout, i);
  }

  // Ending an instance leaves nothing of it active, connected or open.
  lemma EndInstanceClosesEverything(t: Tables, now: int, timeout: int, id: Id, w: GapWriting)
    requires !Aborted(t, now, timeout, id, w)
    ensures var after := EndInstance(t, now, timeout, id, w);
            && (forall i | 0 <= i < |after.instances| ::
                  after.instances[i].id == id ==> after.instances[i].status != Active)
            && (forall i | 0 <= i < |after.segments| ::
                  after.segments[i].instance == id ==> after.segments[i].status != Open)
            && (forall sid | sid in after.sessions ::
                  after.sessions[sid].instance == id ==> after.sessions[sid].end.Some?)
  {
  }

  predicate OpenDepth(s: Segment, id: Id) {
    s.instance == id && s.stream == Depth && s.status == Open
  }

  // A change of depth state leaves one OPEN depth segment of the instance, the new one with the new
  // validity, or none if it was cut off before opening it.
  lemma DepthStateLeavesOneOpen(t: Tables, now: int, id: Id, valid: bool, inserted: bool, i: int)
    requires 0 <= i < |DepthState(t, now, id, valid, inserted).segments|
    ensures OpenDepth(DepthState(t, now, id, valid, inserted).segments[i], id) <==> inserted && i == |t.segments|
    ensures i == |t.segments| ==>
              DepthState(t, now, id, valid, inserted).segments[i] == Segment(id, Depth, now, now, valid, Open)
  {
  }

  // ---- what each call writes ----

  // A recovery orphans exactly the ACTIVE instances whose last heartbeat is more than the timeout ago,
  // the caller excepted.
  lemma OrphanedExactly(t: Tables, now: int, timeout: int, exclude: Option<Id>, w: GapWriting, i: int)
    requires DistinctIds(t.instances) && 0 <= i < |t.instances|
    ensures var row, after := t.instances[i], Recover(t, now, timeout, exclude, w);
            && |after.instances| == |t.instances|
            && after.instances[i]
                 == if row.status == Active && now - row.lastHeartbeat > timeout && exclude != Some(row.id)
                    then row.(end := Some(row.lastHeartbeat + timeout), status := InstanceOrphaned) else row
  {
    var rows := ExpiredRows(t.instances, now, timeout, exclude);
    ExpiredRowsMeaning(t.instances, now, timeout, exclude);
    OrphanAllKeepsRest(t, rows, timeout);
    OrphanAllInstances(t, rows, timeout, i);
    RowOrNot(t.instances, rows, i, now, timeout, exclude);
    if Expired(t.instances[i], now, timeout, exclude) {
      var k :| 0 <= k < |rows| && rows[k] == t.instances[i];
    }
  }

  // The connected sessions of an orphaned instance end where its lease did.
  lemma {:induction false} OrphanAllEndsSessions(t: Tables, rows: seq<Instance>, timeout: int, sid: Id, k: int)
    requires DistinctIds(rows) && sid in t.sessions && t.sessions[sid].end.None?
    requires 0 <= k < |rows| && rows[k].id == t.sessions[sid].instance
    ensures sid in OrphanAll(t, rows, timeout).sessions
    ensures OrphanAll(t, rows, timeout).sessions[sid]
         == t.sessions[sid].(end := Some(LeaseEnd(rows[k], timeout)), status := SessionOrphaned)
  {
    var init := rows[..|rows| - 1];
    if k < |rows| - 1 {
      OrphanAllEndsSessions(t, init, timeout, sid, k);
    } else {
      OrphanAllLeavesSession(t, init, timeout, sid);
    }
  }

  lemma {:induction false} OrphanAllLeavesSession(t: Tables, rows: seq<Instance>, timeout: int, sid: Id)
    requires sid in t.sessions && forall k | 0 <= k < |rows| :: rows[k].id != t.sessions[sid].instance
    ensures sid in OrphanAll(t, rows, timeout).sessions && OrphanAll(t, rows, timeout).sessions[sid] == t.sessions[sid]
  {
    if rows != [] { OrphanAllLeavesSession(t, rows[..|rows| - 1], timeout, sid); }
  }

  lemma OrphanedSessionsEnd(t: Tables, now: int, timeout: int, exclude: Option<Id>, w: GapWriting, sid: Id, i: int)
    requires DistinctIds(t.instances) && sid in t.sessions && t.sessions[sid].end.None?
    requires 0 <= i < |t.instances| && t.instances[i].id == t.sessions[sid].instance
    requires t.instances[i].status == Active && now - t.instances[i].lastHeartbeat > timeout
    requires exclude != Some(t.instances[i].id)
    ensures sid in Recover(t, now, timeout, exclude, w).sessions
    ensures Recover(t, now, timeout, exclude, w).sessions[sid]
         == t.sessions[sid].(end := Some(t.instances[i].lastHeartbeat + timeout), status := SessionOrphaned)
  {
    var rows := ExpiredRows(t.instances, now, timeout, exclude);
    ExpiredRowsMeaning(t.instances, now, timeout, exclude);
    var k :| 0 <= k < |rows| && rows[k] == t.instances[i];
    OrphanAllEndsSessions(t, rows, timeout, sid, k);
  }

  // A heartbeat that is not aborted moves the end of the caller's OPEN segments to now and keeps them OPEN.
  lemma HeartbeatExtendsCoverage(t: Tables, now: int, timeout: int, id: Id, w: GapWriting, i: int)
    requires DistinctIds(t.instances) && 0 <= i < |t.segments| && t.segments[i].instance == id
    requires t.segments[i].status == Open && !Aborted(t, now, timeout, id, w)
    ensures |Heartbeat(t, now, timeout, id, w).segments| == |t.segments|
    ensures Heartbeat(t, now, timeout, id, w).segments[i] == t.segments[i].(end := now)
  {
    var rows := ExpiredRows(t.instances, now, timeout, Some(id));
    ExpiredRowsMeaning(t.instances, now, timeout, Some(id));
    OrphanAllKeepsRest(t, rows, timeout);
    OrphanAllSegments(t, rows, timeout, i);
  }

  // And the heartbeat of its connected sessions.
  lemma HeartbeatTouchesSessions(t: Tables, now: int, timeout: int, id: Id, w: GapWriting, sid: Id)
    requires DistinctIds(t.instances) && sid in t.sessions && t.sessions[sid].instance == id
    requires t.sessions[sid].end.None? && !Aborted(t, now, timeout, id, w)
    ensures sid in Heartbeat(t, now, timeout, id, w).sessions
    ensures Heartbeat(t, now, timeout, id, w).sessions[sid] == t.sessions[sid].(lastHeartbeat := now)
  {
    var rows := ExpiredRows(t.instances, now, timeout, Some(id));
    ExpiredRowsMeaning(t.instances, now, timeout, Some(id));
    OrphanAllLeavesSession(t, rows, timeout, sid);
  }

  // Ending an instance closes its own rows at now.
  lemma EndInstanceClosesAtNow(t: Tables, now: int, timeout: int, id: Id, w: GapWriting, i: int)
    requires DistinctIds(t.instances) && !Aborted(t, now, timeout, id, w)
    ensures |EndInstance(t, now, timeout, id, w).segments| == |t.segments|
    ensures 0 <= i < |t.segments| && t.segments[i].instance == id && t.segments[i].status == Open ==>
              EndInstance(t, now, timeout, id, w).segments[i] == t.segments[i].(end := now, status := Closed)
    ensures |EndInstance(t, now, timeout, id, w).instances| == |t.instances|
    ensures 0 <= i < |t.instances| && t.instances[i].id == id && t.instances[i].status == Active ==>
              EndInstance(t, now, timeout, id, w).instances[i]
              == t.instances[i].(lastHeartbeat := now, end := Some(now), status := InstanceClosed)
  {
    OrphanAllKeepsRest(t, ExpiredRows(t.instances, now, timeout, Some(id)), timeout);
    if 0 <= i < |t.segments| && t.segments[i].instance == id && t.segments[i].status == Open {
      HeartbeatExtendsCoverage(t, now, timeout, id, w, i);
    }
    if 0 <= i < |t.instances| && t.instances[i].id == id && t.instances[i].status == Active {
      HeartbeatNeverOrphansItsCaller(t, now, timeout, id, w, i);
    }
  }

  // And its connected sessions.
  lemma EndInstanceClosesSessions(t: Tables, now: int, timeout: int, id: Id, w: GapWriting, sid: Id)
    requires DistinctIds(t.instances) && !Aborted(t, now, timeout, id, w)
    requires sid in t.sessions && t.sessions[sid].instance == id && t.sessions[sid].end.None?
    ensures sid in EndInstance(t, now, timeout, id, w).sessions
    ensures EndInstance(t, now, timeout, id, w).sessions[sid]
         == t.sessions[sid].(lastHeartbeat := now, end := Some(now), status := SessionClosed)
  {
    HeartbeatTouchesSessions(t, now, timeout, id, w, sid);
  }

  // A change of depth state closes the OPEN depth segments of the instance at now, and no other segment.
  lemma DepthStateClosesDepthOnly(t: Tables, now: int, id: Id, valid: bool, inserted: bool, i: int)
    requires 0 <= i < |t.segments|
    ensures |DepthState(t, now, id, valid, inserted).segments| >= |t.segments|
    ensures DepthState(t, now, id, valid, inserted).segments[i]
         == if OpenDepth(t.segments[i], id) then t.segments[i].(end := now, status := Closed) else t.segments[i]
  {
  }

  // A new instance is ACTIVE from now on, a new session connected with one OPEN segment, which is valid
  // from the start only for trades.
  lemma StartsFresh(t: Tables, now: int, timeout: int, id: Id, w: GapWriting, sid: Id, stream: Stream)
    requires DistinctIds(t.instances) && !CutOff(t, now, timeout, None, w)
    requires (forall i | 0 <= i < |t.instances| :: t.instances[i].id != id) && sid !in t.sessions
    ensures StartInstance(t, now, timeout, id, w).instances
         == Recover(t, now, timeout, None, w).instances + [Instance(id, now, now, None, Active)]
    ensures sid in StartSession(t, now, sid, stream, id).sessions
    ensures StartSession(t, now, sid, stream, id).sessions[sid] == Session(stream, now, None, Connected, id, now)
    ensures StartSession(t, now, sid, stream, id).segments
         == t.segments + [Segment(id, stream, now, now, match stream case Trade => true case Depth => false, Open)]
  {
    RecoverKeeps(t, now, timeout, None, w);
  }

  // Ending a session closes the OPEN segments of its instance and stream at now, and no others.
  lemma EndSessionClosesItsStream(t: Tables, now: int, sid: Id, i: int)
    requires sid in t.sessions && 0 <= i < |t.segments|
    ensures |EndSession(t, now, sid).segments| == |t.segments|
    ensures var s, row := t.segments[i], t.sessions[sid];
            EndSession(t, now, sid).segments[i]
            == if s.instance == row.instance && s.stream == row.stream && s.status == Open
               then s.(end := now, status := Closed) else s
  {
  }

  // ---- gaps and the orphans they account for ----

  // Gap g accounts for an orphaned instance: it names it and starts where its lease ended.
  predicate AccountsFor(g: LeaseGap, i: Instance) {
    i.status == InstanceOrphaned && g.orphan == i.id && i.end == Some(g.start)
  }

  // A gap names the instance.
  ghost predicate Named(gaps: seq<LeaseGap>, id: Id) {
    exists g | 0 <= g < |gaps| :: gaps[g].orphan == id
  }

  ghost predicate NamesAnOrphan(g: LeaseGap, instances: seq<Instance>) {
    exists i | 0 <= i < |instances| :: AccountsFor(g, instances[i])
  }

  // Gaps have positive length, each accounts for an orphaned instance, and no two for the same one.
  ghost predicate Consistent(t: Tables) {
    && DistinctIds(t.instances)
    && (forall g | 0 <= g < |t.gaps| :: t.gaps[g].start < t.gaps[g].end && NamesAnOrphan(t.gaps[g], t.instances))
    && (forall g, h | 0 <= g < h < |t.gaps| :: t.gaps[g].orphan != t.gaps[h].orphan)
  }

  // Every orphaned instance has its gap.
  ghost predicate Accounted(t: Tables) {
    forall i | 0 <= i < |t.instances| && t.instances[i].status == InstanceOrphaned :: Named(t.gaps, t.instances[i].id)
  }

  ghost predicate Keeps(a: Tables, b: Tables) {
    KeepsSegments(a.segments, b.segments) && KeepsInstances(a.instances, b.instances)
    && |a.gaps| <= |b.gaps| && b.gaps[..|a.gaps|] == a.gaps
  }

  lemma KeepsCompose(a: Tables, b: Tables, c: Tables)
    requires Keeps(a, b) && Keeps(b, c)
    ensures Keeps(a, c)
  {
    assert c.gaps[..|a.gaps|] == b.gaps[..|a.gaps|];
  }

  // A named instance's orphan row is frozen, so the gap keeps naming an orphan.
  lemma StillNamesAnOrphan(a: seq<Instance>, b: seq<Instance>, g: LeaseGap)
    requires KeepsInstances(a, b) && NamesAnOrphan(g, a)
    ensures NamesAnOrphan(g, b)
  {
    var i :| 0 <= i < |a| && AccountsFor(g, a[i]);
    assert AccountsFor(g, b[i]);
  }

  // A step that adds no gap.
  lemma ConsistentWithSameGaps(a: Tables, b: Tables)
    requires Consistent(a) && Keeps(a, b) && b.gaps == a.gaps && DistinctIds(b.instances)
    ensures Consistent(b)
  {
    forall g | 0 <= g < |b.gaps| ensures NamesAnOrphan(b.gaps[g], b.instances) {
      StillNamesAnOrphan(a.instances, b.instances, a.gaps[g]);
    }
  }

  lemma RecoverIsKept(t: Tables, now: int, timeout: int, exclude: Option<Id>, w: GapWriting)
    requires DistinctIds(t.instances)
    ensures Keeps(t, Recover(t, now, timeout, exclude, w))
  {
    RecoverKeeps(t, now, timeout, exclude, w);
    OrphanAllKeepsRest(t, ExpiredRows(t.instances, now, timeout, exclude), timeout);
  }

  // The gaps a recovery adds: one per expired row, for as many rows as were written.
  lemma AddedGaps(t: Tables, now: int, timeout: int, exclude: Option<Id>, w: GapWriting, g: int)
    requires DistinctIds(t.instances)
    requires |t.gaps| <= g < |Recover(t, now, timeout, exclude, w).gaps|
    ensures var rows := ExpiredRows(t.instances, now, timeout, exclude);
            && g - |t.gaps| < |rows| && rows[g - |t.gaps|] in t.instances
            && Expired(rows[g - |t.gaps|], now, timeout, exclude)
            && Recover(t, now, timeout, exclude, w).gaps[g]
                 == LeaseGap(LeaseEnd(rows[g - |t.gaps|], timeout), now, rows[g - |t.gaps|].id)
  {
    ExpiredRowsMeaning(t.instances, now, timeout, exclude);
    OrphanAllKeepsRest(t, ExpiredRows(t.instances, now, timeout, exclude), timeout);
  }

  lemma AddedGapNamesAnOrphan(t: Tables, now: int, timeout: int, exclude: Option<Id>, w: GapWriting, g: int)
    requires DistinctIds(t.instances)
    requires |t.gaps| <= g < |Recover(t, now, timeout, exclude, w).gaps|
    ensures var after := Recover(t, now, timeout, exclude, w);
            after.gaps[g].start < after.gaps[g].end && NamesAnOrphan(after.gaps[g], after.instances)
  {
    var rows, after := ExpiredRows(t.instances, now, timeout, exclude), Recover(t, now, timeout, exclude, w);
    AddedGaps(t, now, timeout, exclude, w, g);
    var i :| 0 <= i < |t.instances| && t.instances[i] == rows[g - |t.gaps|];
    OrphaningLeavesOneGap(t, now, timeout, exclude, w, i);
    assert AccountsFor(after.gaps[g], after.instances[i]);
  }

  // Whoever is named by a gap was orphaned before, so no expired row is.
  lemma ExpiredIsUnnamed(t: Tables, row: Instance)
    requires Consistent(t) && row in t.instances && row.status == Active
    ensures !Named(t.gaps, row.id)
  {
  }

  lemma RecoverStaysConsistent(t: Tables, now: int, timeout: int, exclude: Option<Id>, w: GapWriting)
    requires Consistent(t)
    ensures Consistent(Recover(t, now, timeout, exclude, w))
  {
    var rows, after := ExpiredRows(t.instances, now, timeout, exclude), Recover(t, now, timeout, exclude, w);
    RecoverKeeps(t, now, timeout, exclude, w);
    RecoverIsKept(t, now, timeout, exclude, w);
    ExpiredRowsMeaning(t.instances, now, timeout, exclude);
    forall g | 0 <= g < |after.gaps|
      ensures after.gaps[g].start < after.gaps[g].end && NamesAnOrphan(after.gaps[g], after.instances)
    {
      if g < |t.gaps| {
        assert after.gaps[g] == after.gaps[..|t.gaps|][g];
        StillNamesAnOrphan(t.instances, after.instances, t.gaps[g]);
      } else {
        AddedGapNamesAnOrphan(t, now, timeout, exclude, w, g);
      }
    }
    forall g, h | 0 <= g < h < |after.gaps| ensures after.gaps[g].orphan != after.gaps[h].orphan {
      GapsStayDistinct(t, now, timeout, exclude, w, g, h);
    }
  }

  lemma GapsStayDistinct(t: Tables, now: int, timeout: int, exclude: Option<Id>, w: GapWriting, g: int, h: int)
    requires Consistent(t) && 0 <= g < h < |Recover(t, now, timeout, exclude, w).gaps|
    ensures Recover(t, now, timeout, exclude, w).gaps[g].orphan != Recover(t, now, timeout, exclude, w).gaps[h].orphan
  {
    var after := Recover(t, now, timeout, exclude, w);
    RecoverIsKept(t, now, timeout, exclude, w);
    ExpiredRowsMeaning(t.instances, now, timeout, exclude);
    if g < |t.gaps| { assert after.gaps[g] == after.gaps[..|t.gaps|][g]; }
    if h < |t.gaps| {
      assert after.gaps[h] == after.gaps[..|t.gaps|][h];
    } else {
      AddedGaps(t, now, timeout, exclude, w, h);
      if g < |t.gaps| {
        ExpiredIsUnnamed(t, ExpiredRows(t.instances, now, timeout, exclude)[h - |t.gaps|]);
      } else {
        AddedGaps(t, now, timeout, exclude, w, g);
      }
    }
  }

  lemma HeartbeatKeeps(t: Tables, now: int, timeout: int, id: Id, w: GapWriting)
    requires Consistent(t)
    ensures Consistent(Heartbeat(t, now, timeout, id, w)) && Keeps(t, Heartbeat(t, now, timeout, id, w))
  {
    var mid, after := Recover(t, now, timeout, Some(id), w), Heartbeat(t, now, timeout, id, w);
    RecoverStaysConsistent(t, now, timeout, Some(id), w);
    RecoverIsKept(t, now, timeout, Some(id), w);
    assert Keeps(mid, after);
    ConsistentWithSameGaps(mid, after);
    KeepsCompose(t, mid, after);
  }

  lemma StartInstanceKeeps(t: Tables, now: int, timeout: int, id: Id, w: GapWriting)
    requires Consistent(t)
    ensures Consistent(StartInstance(t, now, timeout, id, w)) && Keeps(t, StartInstance(t, now, timeout, id, w))
  {
    var mid, after := Recover(t, now, timeout, None, w), StartInstance(t, now, timeout, id, w);
    RecoverStaysConsistent(t, now, timeout, None, w);
    RecoverIsKept(t, now, timeout, None, w);
    assert Keeps(mid, after);
    ConsistentWithSameGaps(mid, after);
    KeepsCompose(t, mid, after);
  }

  lemma EndInstanceKeeps(t: Tables, now: int, timeout: int, id: Id, w: GapWriting)
    requires Consistent(t)
    ensures Consistent(EndInstance(t, now, timeout, id, w)) && Keeps(t, EndInstance(t, now, timeout, id, w))
  {
    var mid, after := Heartbeat(t, now, timeout, id, w), EndInstance(t, now, timeout, id, w);
    HeartbeatKeeps(t, now, timeout, id, w);
    assert Keeps(mid, after);
    ConsistentWithSameGaps(mid, after);
    KeepsCompose(t, mid, after);
  }

  lemma EachCallKeeps(t: Tables, now: int, timeout: int, call: Call)
    requires Consistent(t)
    ensures Consistent(Do(t, now, timeout, call)) && Keeps(t, Do(t, now, timeout, call))
  {
    match call
    case RecoverCall(exclude, w) =>
      RecoverStaysConsistent(t, now, timeout, exclude, w);
      RecoverIsKept(t, now, timeout, exclude, w);
    case StartInstanceCall(id, w) => StartInstanceKeeps(t, now, timeout, id, w);
    case StartSessionCall(sid, stream, id) => ConsistentWithSameGaps(t, StartSession(t, now, sid, stream, id));
    case HeartbeatCall(id, w) => HeartbeatKeeps(t, now, timeout, id, w);
    case DepthStateCall(id, valid, inserted) => ConsistentWithSameGaps(t, DepthState(t, now, id, valid, inserted));
    case EndSessionCall(sid) => ConsistentWithSameGaps(t, EndSession(t, now, sid));
    case EndInstanceCall(id, w) => EndInstanceKeeps(t, now, timeout, id, w);
  }

  // ---- whole runs ----

  // A run of calls, each at its own time.
  function Run(t: Tables, timeout: int, calls: seq<(int, Call)>): Tables {
    if calls == [] then t
    else
      var (now, call) := calls[|calls| - 1];
      Do(Run(t, timeout, calls[..|calls| - 1]), now, timeout, call)
  }

  // From any reachable state on, whatever is cut off: CLOSED and ORPHANED segments and ended instances
  // never change, the gap log only grows, and every gap has positive length and is the only one of an
  // orphaned instance, starting where its lease ended.
  lemma {:induction false} EveryRunKeeps(t: Tables, timeout: int, calls: seq<(int, Call)>)
    requires Consistent(t)
    ensures Consistent(Run(t, timeout, calls)) && Keeps(t, Run(t, timeout, calls))
  {
    if calls != [] {
      var init := calls[..|calls| - 1];
      EveryRunKeeps(t, timeout, init);
      EachCallKeeps(Run(t, timeout, init), calls[|calls| - 1].0, timeout, calls[|calls| - 1].1);
      KeepsCompose(t, Run(t, timeout, init), Run(t, timeout, calls));
    }
  }

  lemma RunsStartConsistent()
    ensures Consistent(EMPTY) && Accounted(EMPTY)
  {
  }

  // ---- exactly which recoveries leave an orphan without its gap ----

  // The expired rows the call's recovery selects, and how its gap writing ends.
  function Selected(t: Tables, now: int, timeout: int, call: Call): seq<Instance> {
    match call
    case RecoverCall(exclude, _) => ExpiredRows(t.instances, now, timeout, exclude)
    case StartInstanceCall(_, _) => ExpiredRows(t.instances, now, timeout, None)
    case HeartbeatCall(id, _) => ExpiredRows(t.instances, now, timeout, Some(id))
    case EndInstanceCall(id, _) => ExpiredRows(t.instances, now, timeout, Some(id))
    case _ => []
  }

  function WritingOf(call: Call): GapWriting {
    match call
    case RecoverCall(_, w) => w
    case StartInstanceCall(_, w) => w
    case HeartbeatCall(_, w) => w
    case EndInstanceCall(_, w) => w
    case _ => AllWritten
  }

  // How many of the gaps it owes the call does not write.
  function Missed(t: Tables, now: int, timeout: int, call: Call): nat {
    var owed := |Selected(t, now, timeout, call)|;
    owed - Written(owed, WritingOf(call))
  }

  function MissedInRun(t: Tables, timeout: int, calls: seq<(int, Call)>): nat {
    if calls == [] then 0
    else
      var init, (now, call) := calls[..|calls| - 1], calls[|calls| - 1];
      MissedInRun(t, timeout, init) + Missed(Run(t, timeout, init), now, timeout, call)
  }

  // How many instances are ORPHANED.
  function OrphanCount(instances: seq<Instance>): nat {
    if instances == [] then 0
    else
      var last := instances[|instances| - 1];
      OrphanCount(instances[..|instances| - 1]) + if last.status == InstanceOrphaned then 1 else 0
  }

  lemma {:induction false} SameOrphans(a: seq<Instance>, b: seq<Instance>)
    requires |a| == |b|
    requires forall i | 0 <= i < |a| :: a[i].status == InstanceOrphaned <==> b[i].status == InstanceOrphaned
    ensures OrphanCount(a) == OrphanCount(b)
  {
    if a != [] { SameOrphans(a[..|a| - 1], b[..|b| - 1]); }
  }

  lemma {:induction false} OrphanCountGrows(a: seq<Instance>, b: seq<Instance>, now: int, timeout: int,
                                            exclude: Option<Id>)
    requires |a| == |b|
    requires forall i | 0 <= i < |a| ::
               b[i].status == InstanceOrphaned
               <==> a[i].status == InstanceOrphaned || Expired(a[i], now, timeout, exclude)
    ensures OrphanCount(b) == OrphanCount(a) + |ExpiredRows(a, now, timeout, exclude)|
  {
    if a != [] { OrphanCountGrows(a[..|a| - 1], b[..|b| - 1], now, timeout, exclude); }
  }

  // What the gaps lag behind the orphans.
  function Lag(t: Tables): int {
    OrphanCount(t.instances) - |t.gaps|
  }

  lemma RecoverLag(t: Tables, now: int, timeout: int, exclude: Option<Id>, w: GapWriting)
    requires Consistent(t)
    ensures var owed := |ExpiredRows(t.instances, now, timeout, exclude)|;
            Lag(Recover(t, now, timeout, exclude, w)) == Lag(t) + owed - Written(owed, w)
  {
    var rows, after := ExpiredRows(t.instances, now, timeout, exclude), Recover(t, now, timeout, exclude, w);
    ExpiredRowsMeaning(t.instances, now, timeout, exclude);
    OrphanAllKeepsRest(t, rows, timeout);
    forall i | 0 <= i < |t.instances|
      ensures after.instances[i].status == InstanceOrphaned
         <==> t.instances[i].status == InstanceOrphaned || Expired(t.instances[i], now, timeout, exclude)
    {
      OrphanAllInstances(t, rows, timeout, i);
      RowOrNot(t.instances, rows, i, now, timeout, exclude);
    }
    OrphanCountGrows(t.instances, after.instances, now, timeout, exclude);
  }

  lemma CallLag(t: Tables, now: int, timeout: int, call: Call)
    requires Consistent(t)
    ensures Lag(Do(t, now, timeout, call)) == Lag(t) + Missed(t, now, timeout, call)
  {
    match call
    case RecoverCall(exclude, w) => RecoverLag(t, now, timeout, exclude, w);
    case StartInstanceCall(id, w) =>
      var mid, after := Recover(t, now, timeout, None, w), StartInstance(t, now, timeout, id, w);
      RecoverLag(t, now, timeout, None, w);
      if after != mid { assert after.instances[..|mid.instances|] == mid.instances; }
    case HeartbeatCall(id, w) => HeartbeatLag(t, now, timeout, id, w);
    case EndInstanceCall(id, w) =>
      HeartbeatLag(t, now, timeout, id, w);
      SameOrphans(Heartbeat(t, now, timeout, id, w).instances, EndInstance(t, now, timeout, id, w).instances);
    case _ =>
  }

  lemma HeartbeatLag(t: Tables, now: int, timeout: int, id: Id, w: GapWriting)
    requires Consistent(t)
    ensures var owed := |ExpiredRows(t.instances, now, timeout, Some(id))|;
            Lag(Heartbeat(t, now, timeout, id, w)) == Lag(t) + owed - Written(owed, w)
  {
    RecoverLag(t, now, timeout, Some(id), w);
    SameOrphans(Recover(t, now, timeout, Some(id), w).instances, Heartbeat(t, now, timeout, id, w).instances);
  }

  lemma {:induction false} RunLag(t: Tables, timeout: int, calls: seq<(int, Call)>)
    requires Consistent(t)
    ensures Lag(Run(t, timeout, calls)) == Lag(t) + MissedInRun(t, timeout, calls)
  {
    if calls != [] {
      var init := calls[..|calls| - 1];
      RunLag(t, timeout, init);
      EveryRunKeeps(t, timeout, init);
      CallLag(Run(t, timeout, init), calls[|calls| - 1].0, timeout, calls[|calls| - 1].1);
    }
  }

  // The call's recovery was cut off before its last gap.
  ghost predicate WasCut(t: Tables, timeout: int, calls: seq<(int, Call)>, i: int)
    requires 0 <= i < |calls|
  {
    Missed(Run(t, timeout, calls[..i]), calls[i].0, timeout, calls[i].1) > 0
  }

  ghost function Cutting(t: Tables, timeout: int, calls: seq<(int, Call)>): int -> bool {
    i => 0 <= i < |calls| && WasCut(t, timeout, calls, i)
  }

  lemma MissedSnoc(t: Tables, timeout: int, calls: seq<(int, Call)>, n: nat)
    requires n < |calls|
    ensures MissedInRun(t, timeout, calls[..n + 1]) == 0
       <==> MissedInRun(t, timeout, calls[..n]) == 0 && !WasCut(t, timeout, calls, n)
  {
    assert calls[..n + 1][..n] == calls[..n];
  }

  lemma {:induction false} NothingMissedUpTo(t: Tables, timeout: int, calls: seq<(int, Call)>, n: nat)
    requires n <= |calls|
    ensures MissedInRun(t, timeout, calls[..n]) == 0 <==> !Ever(Cutting(t, timeout, calls), n)
  {
    if n > 0 {
      NothingMissedUpTo(t, timeout, calls, n - 1);
      MissedSnoc(t, timeout, calls, n - 1);
      EverStep(Cutting(t, timeout, calls), n - 1);
    }
  }

  lemma NothingMissedExactly(t: Tables, timeout: int, calls: seq<(int, Call)>)
    ensures MissedInRun(t, timeout, calls) == 0 <==> forall i | 0 <= i < |calls| :: !WasCut(t, timeout, calls, i)
  {
    NothingMissedUpTo(t, timeout, calls, |calls|);
    assert calls[..|calls|] == calls;
    var cut := Cutting(t, timeout, calls);
    assert forall i | 0 <= i < |calls| :: cut(i) == WasCut(t, timeout, calls, i);
  }

  // In every run from the empty partition the gaps are at most as many as the orphaned instances,
  // and exactly as many if and only if no recovery was cut off.
  lemma GapsMatchOrphansExactly(timeout: int, calls: seq<(int, Call)>)
    ensures var end := Run(EMPTY, timeout, calls);
            && |end.gaps| <= OrphanCount(end.instances)
            && (|end.gaps| == OrphanCount(end.instances)
                <==> forall i | 0 <= i < |calls| :: !WasCut(EMPTY, timeout, calls, i))
  {
    RunsStartConsistent();
    RunLag(EMPTY, timeout, calls);
    NothingMissedExactly(EMPTY, timeout, calls);
  }

  // ---- an orphan without its gap is never repaired ----

  lemma RecoverNames(t: Tables, now: int, timeout: int, exclude: Option<Id>, w: GapWriting, i: int)
    requires Consistent(t) && 0 <= i < |t.instances| && t.instances[i].status != Active
    requires Named(Recover(t, now, timeout, exclude, w).gaps, t.instances[i].id)
    ensures Named(t.gaps, t.instances[i].id)
  {
    var after := Recover(t, now, timeout, exclude, w);
    RecoverIsKept(t, now, timeout, exclude, w);
    var g :| 0 <= g < |after.gaps| && after.gaps[g].orphan == t.instances[i].id;
    if g < |t.gaps| {
      assert after.gaps[g] == after.gaps[..|t.gaps|][g];
    } else {
      AddedGaps(t, now, timeout, exclude, w, g);
    }
  }

  lemma CallNames(t: Tables, now: int, timeout: int, call: Call, i: int)
    requires Consistent(t) && 0 <= i < |t.instances| && t.instances[i].status != Active
    requires Named(Do(t, now, timeout, call).gaps, t.instances[i].id)
    ensures Named(t.gaps, t.instances[i].id)
  {
    match call
    case RecoverCall(exclude, w) => RecoverNames(t, now, timeout, exclude, w, i);
    case StartInstanceCall(id, w) => RecoverNames(t, now, timeout, None, w, i);
    case HeartbeatCall(id, w) => RecoverNames(t, now, timeout, Some(id), w, i);
    case EndInstanceCall(id, w) => RecoverNames(t, now, timeout, Some(id), w, i);
    case _ =>
  }

  // An ended instance that has no gap gets none from any later call.
  lemma {:induction false} NeverRepaired(t: Tables, timeout: int, calls: seq<(int, Call)>, i: int)
    requires Consistent(t) && 0 <= i < |t.instances| && t.instances[i].status != Active
    requires !Named(t.gaps, t.instances[i].id)
    ensures i < |Run(t, timeout, calls).instances| && Run(t, timeout, calls).instances[i] == t.instances[i]
    ensures !Named(Run(t, timeout, calls).gaps, t.instances[i].id)
  {
    EveryRunKeeps(t, timeout, calls);
    if calls != [] {
      var init := calls[..|calls| - 1];
      NeverRepaired(t, timeout, init, i);
      EveryRunKeeps(t, timeout, init);
      if Named(Run(t, timeout, calls).gaps, t.instances[i].id) {
        CallNames(Run(t, timeout, init), calls[|calls| - 1].0, timeout, calls[|calls| - 1].1, i);
      }
    }
  }

  // A recovery cut off before its k-th gap leaves that row orphaned without a gap.
  lemma CutOffLeavesOrphan(t: Tables, now: int, timeout: int, exclude: Option<Id>, w: GapWriting, k: int)
    requires Consistent(t) && w.Stopped? && w.written <= k < |ExpiredRows(t.instances, now, timeout, exclude)|
    ensures var row, after := ExpiredRows(t.instances, now, timeout, exclude)[k], Recover(t, now, timeout, exclude, w);
            && !Named(after.gaps, row.id)
            && exists i | 0 <= i < |after.instances| ::
                 after.instances[i].id == row.id && after.instances[i].status == InstanceOrphaned
  {
    var rows, after := ExpiredRows(t.instances, now, timeout, exclude), Recover(t, now, timeout, exclude, w);
    ExpiredRowsMeaning(t.instances, now, timeout, exclude);
    OrphanAllKeepsRest(t, rows, timeout);
    ExpiredIsUnnamed(t, rows[k]);
    var i :| 0 <= i < |t.instances| && t.instances[i] == rows[k];
    OrphanAllInstances(t, rows, timeout, i);
    forall g | 0 <= g < |after.gaps| ensures after.gaps[g].orphan != rows[k].id {
      if g < |t.gaps| {
        RecoverIsKept(t, now, timeout, exclude, w);
        assert after.gaps[g] == after.gaps[..|t.gaps|][g];
      } else {
        AddedGaps(t, now, timeout, exclude, w, g);
      }
    }
  }

  lemma StillNamed(a: seq<LeaseGap>, b: seq<LeaseGap>, id: Id)
    requires |a| <= |b| && b[..|a|] == a && Named(a, id)
    ensures Named(b, id)
  {
    var g :| 0 <= g < |a| && a[g].orphan == id;
    assert b[g] == b[..|a|][g];
  }

  // After a recovery every orphan has its gap exactly when every earlier one had and it was not cut off.
  lemma RecoverAccounts(t: Tables, now: int, timeout: int, exclude: Option<Id>, w: GapWriting)
    requires Consistent(t)
    ensures Accounted(Recover(t, now, timeout, exclude, w)) <==> Accounted(t) && !CutOff(t, now, timeout, exclude, w)
  {
    var after := Recover(t, now, timeout, exclude, w);
    RecoverIsKept(t, now, timeout, exclude, w);
    RecoverKeeps(t, now, timeout, exclude, w);
    if Accounted(t) && !CutOff(t, now, timeout, exclude, w) {
      forall i | 0 <= i < |after.instances| && after.instances[i].status == InstanceOrphaned
        ensures Named(after.gaps, after.instances[i].id)
      {
        NewOrphanIsNamed(t, now, timeout, exclude, w, i);
      }
    }
    if Accounted(after) {
      forall i | 0 <= i < |t.instances| && t.instances[i].status == InstanceOrphaned
        ensures Named(t.gaps, t.instances[i].id)
      {
        assert Named(after.gaps, after.instances[i].id);
        RecoverNames(t, now, timeout, exclude, w, i);
      }
      if CutOff(t, now, timeout, exclude, w) { CutOffLeavesOrphan(t, now, timeout, exclude, w, w.written); }
    }
  }

  lemma NewOrphanIsNamed(t: Tables, now: int, timeout: int, exclude: Option<Id>, w: GapWriting, i: int)
    requires Consistent(t) && Accounted(t) && !CutOff(t, now, timeout, exclude, w)
    requires 0 <= i < |t.instances| && |Recover(t, now, timeout, exclude, w).instances| == |t.instances|
    requires Recover(t, now, timeout, exclude, w).instances[i].status == InstanceOrphaned
    ensures Named(Recover(t, now, timeout, exclude, w).gaps, Recover(t, now, timeout, exclude, w).instances[i].id)
  {
    var rows, after := ExpiredRows(t.instances, now, timeout, exclude), Recover(t, now, timeout, exclude, w);
    ExpiredRowsMeaning(t.instances, now, timeout, exclude);
    RecoverIsKept(t, now, timeout, exclude, w);
    if t.instances[i].status == InstanceOrphaned {
      StillNamed(t.gaps, after.gaps, t.instances[i].id);
    } else {
      OrphanAllInstances(t, rows, timeout, i);
      RowOrNot(t.instances, rows, i, now, timeout, exclude);
      OrphaningLeavesOneGap(t, now, timeout, exclude, w, i);
    }
  }

  // A step that orphans nobody and adds no gap.
  lemma SameAccounts(a: Tables, b: Tables)
    requires Keeps(a, b) && b.gaps == a.gaps
    requires forall i | 0 <= i < |b.instances| && b.instances[i].status == InstanceOrphaned ::
               i < |a.instances| && a.instances[i].status == InstanceOrphaned
    ensures Accounted(b) <==> Accounted(a)
  {
    forall i | 0 <= i < |a.instances| && a.instances[i].status == InstanceOrphaned
      ensures b.instances[i] == a.instances[i] {}
  }

  lemma HeartbeatAccounts(t: Tables, now: int, timeout: int, id: Id, w: GapWriting)
    requires Consistent(t)
    ensures Accounted(Heartbeat(t, now, timeout, id, w)) <==> Accounted(t) && !CutOff(t, now, timeout, Some(id), w)
  {
    var mid := Recover(t, now, timeout, Some(id), w);
    RecoverAccounts(t, now, timeout, Some(id), w);
    SameAccounts(mid, Heartbeat(t, now, timeout, id, w));
  }

  lemma CallAccounts(t: Tables, now: int, timeout: int, call: Call)
    requires Consistent(t)
    ensures Accounted(Do(t, now, timeout, call)) <==> Accounted(t) && Missed(t, now, timeout, call) == 0
  {
    match call
    case RecoverCall(exclude, w) => RecoverAccounts(t, now, timeout, exclude, w);
    case StartInstanceCall(id, w) =>
      RecoverAccounts(t, now, timeout, None, w);
      SameAccounts(Recover(t, now, timeout, None, w), StartInstance(t, now, timeout, id, w));
    case HeartbeatCall(id, w) => HeartbeatAccounts(t, now, timeout, id, w);
    case EndInstanceCall(id, w) =>
      HeartbeatAccounts(t, now, timeout, id, w);
      SameAccounts(Heartbeat(t, now, timeout, id, w), EndInstance(t, now, timeout, id, w));
    case _ =>
  }

  lemma {:induction false} RunAccounts(t: Tables, timeout: int, calls: seq<(int, Call)>)
    requires Consistent(t) && Accounted(t)
    ensures Accounted(Run(t, timeout, calls)) <==> MissedInRun(t, timeout, calls) == 0
  {
    if calls != [] {
      var init := calls[..|calls| - 1];
      RunAccounts(t, timeout, init);
      EveryRunKeeps(t, timeout, init);
      CallAccounts(Run(t, timeout, init), calls[|calls| - 1].0, timeout, calls[|calls| - 1].1);
    }
  }

  // In every run from the empty partition each orphaned instance has its gap if and only if no recovery was cut off.
  lemma EveryOrphanHasItsGapExactly(timeout: int, calls: seq<(int, Call)>)
    ensures Accounted(Run(EMPTY, timeout, calls)) <==> forall i | 0 <= i < |calls| :: !WasCut(EMPTY, timeout, calls, i)
  {
    RunsStartConsistent();
    RunAccounts(EMPTY, timeout, calls);
    NothingMissedExactly(EMPTY, timeout, calls);
  }

  // ---- refused gaps ----

  // A gap is filed under the day of its start; a day whose partition is finalized refuses it.
  predicate RefusedRow(row: Instance, timeout: int, finalized: set<int>) {
    LeaseEnd(row, timeout) / DAY_MS in finalized
  }

  // The first row whose gap is refused, or the number of rows.
  function FirstRefused(rows: seq<Instance>, timeout: int, finalized: set<int>): (n: nat)
    ensures n <= |rows|
    ensures forall k | 0 <= k < n :: !RefusedRow(rows[k], timeout, finalized)
    ensures n < |rows| ==> RefusedRow(rows[n], timeout, finalized)
  {
    if rows == [] || RefusedRow(rows[0], timeout, finalized) then 0
    else 1 + FirstRefused(rows[1..], timeout, finalized)
  }

  // How gap writing ends when only finalized days stop it: the refusal is a RuntimeError, which nobody catches.
  function RefusedBy(rows: seq<Instance>, timeout: int, finalized: set<int>): GapWriting {
    var n := FirstRefused(rows, timeout, finalized);
    if n < |rows| then Stopped(n, false) else AllWritten
  }

  // A recovery that only finalized days can stop writes the gap of its k-th expired row exactly when no
  // row up to the k-th has its lease end on a finalized day: the first refusal costs all later rows theirs.
  lemma GapWrittenExactly(t: Tables, now: int, timeout: int, exclude: Option<Id>, finalized: set<int>, k: int)
    requires Consistent(t) && 0 <= k < |ExpiredRows(t.instances, now, timeout, exclude)|
    ensures var rows := ExpiredRows(t.instances, now, timeout, exclude);
            Named(Recover(t, now, timeout, exclude, RefusedBy(rows, timeout, finalized)).gaps, rows[k].id)
            <==> forall j | 0 <= j <= k :: !RefusedRow(rows[j], timeout, finalized)
  {
    var rows := ExpiredRows(t.instances, now, timeout, exclude);
    var w, n := RefusedBy(rows, timeout, finalized), FirstRefused(rows, timeout, finalized);
    var after := Recover(t, now, timeout, exclude, w);
    if n <= k {
      CutOffLeavesOrphan(t, now, timeout, exclude, w, k);
    } else {
      OrphanAllKeepsRest(t, rows, timeout);
      assert after.gaps[|t.gaps| + k] == LeaseGap(LeaseEnd(rows[k], timeout), now, rows[k].id);
    }
  }

  // The call was not killed: only a finalized day can have stopped its gap writing.
  predicate Unkilled(t: Tables, now: int, timeout: int, call: Call, finalized: set<int>) {
    WritingOf(call) == RefusedBy(Selected(t, now, timeout, call), timeout, finalized)
  }

  // The call's recovery selects a row whose lease ended on a finalized day.
  ghost predicate OwesFinalizedDay(t: Tables, now: int, timeout: int, call: Call, finalized: set<int>) {
    exists row | row in Selected(t, now, timeout, call) :: RefusedRow(row, timeout, finalized)
  }

  lemma MissedExactly(t: Tables, now: int, timeout: int, call: Call, finalized: set<int>)
    requires Unkilled(t, now, timeout, call, finalized)
    ensures Missed(t, now, timeout, call) > 0 <==> OwesFinalizedDay(t, now, timeout, call, finalized)
  {
    var rows := Selected(t, now, timeout, call);
    var n := FirstRefused(rows, timeout, finalized);
    if n < |rows| { assert RefusedRow(rows[n], timeout, finalized); }
  }

  // In every run from the empty partition in which no call is killed, with `finalized[i]` the days
  // finalized at call i: every orphaned instance has its gap if and only if no recovery ever selected a
  // row whose lease ended on a finalized day.
  lemma GapsUnlessFinalized(timeout: int, calls: seq<(int, Call)>, finalized: seq<set<int>>)
    requires |finalized| == |calls|
    requires forall i | 0 <= i < |calls| ::
               Unkilled(Run(EMPTY, timeout, calls[..i]), calls[i].0, timeout, calls[i].1, finalized[i])
    ensures Accounted(Run(EMPTY, timeout, calls))
       <==> forall i | 0 <= i < |calls| ::
              !OwesFinalizedDay(Run(EMPTY, timeout, calls[..i]), calls[i].0, timeout, calls[i].1, finalized[i])
  {
    EveryOrphanHasItsGapExactly(timeout, calls);
    forall i | 0 <= i < |calls|
      ensures WasCut(EMPTY, timeout, calls, i)
         <==> OwesFinalizedDay(Run(EMPTY, timeout, calls[..i]), calls[i].0, timeout, calls[i].1, finalized[i])
    {
      MissedExactly(Run(EMPTY, timeout, calls[..i]), calls[i].0, timeout, calls[i].1, finalized[i]);
    }
  }

  // ---- ended sessions ----

  lemma {:induction false} OrphanAllSessions(t: Tables, rows: seq<Instance>, timeout: int, sid: Id)
    requires sid in t.sessions && t.sessions[sid].end.Some?
    ensures sid in OrphanAll(t, rows, timeout).sessions
    ensures OrphanAll(t, rows, timeout).sessions[sid] == t.sessions[sid]
  {
    if rows != [] { OrphanAllSessions(t, rows[..|rows| - 1], timeout, sid); }
  }

  lemma RecoverSessions(t: Tables, now: int, timeout: int, exclude: Option<Id>, w: GapWriting, sid: Id)
    requires sid in t.sessions && t.sessions[sid].end.Some?
    ensures sid in Recover(t, now, timeout, exclude, w).sessions
    ensures Recover(t, now, timeout, exclude, w).sessions[sid] == t.sessions[sid]
  {
    OrphanAllSessions(t, ExpiredRows(t.instances, now, timeout, exclude), timeout, sid);
  }

  // The row of an ended session after a call: only ending it again touches it.
  function EndedAgain(row: Session, sid: Id, now: int, call: Call): Session {
    if call == EndSessionCall(sid) then row.(end := Some(now), status := SessionClosed) else row
  }

  // An ended session's row changes exactly when the session is ended again, at another time or after
  // having been orphaned.  Sessions, unlike segments and instances, are not absorbing.
  lemma EndedSessionChangesExactly(t: Tables, now: int, timeout: int, call: Call, sid: Id)
    requires sid in t.sessions && t.sessions[sid].end.Some?
    ensures sid in Do(t, now, timeout, call).sessions
    ensures Do(t, now, timeout, call).sessions[sid] == EndedAgain(t.sessions[sid], sid, now, call)
    ensures Do(t, now, timeout, call).sessions[sid] != t.sessions[sid]
       <==> call == EndSessionCall(sid)
            && (t.sessions[sid].end != Some(now) || t.sessions[sid].status != SessionClosed)
  {
    match call
    case RecoverCall(exclude, w) => RecoverSessions(t, now, timeout, exclude, w, sid);
    case StartInstanceCall(id, w) => RecoverSessions(t, now, timeout, None, w, sid);
    case HeartbeatCall(id, w) => RecoverSessions(t, now, timeout, Some(id), w, sid);
    case EndInstanceCall(id, w) => RecoverSessions(t, now, timeout, Some(id), w, sid);
    case _ =>
  }

  // When the session was last ended in the run.
  function LastEnd(calls: seq<(int, Call)>, sid: Id): Option<int> {
    if calls == [] then None
    else
      var (now, call) := calls[|calls| - 1];
      if call == EndSessionCall(sid) then Some(now) else LastEnd(calls[..|calls| - 1], sid)
  }

  // Over every run an ended session's row is as it was, or closed at the last time it was ended again.
  lemma {:induction false} EndedSessionOverRuns(t: Tables, timeout: int, calls: seq<(int, Call)>, sid: Id)
    requires sid in t.sessions && t.sessions[sid].end.Some?
    ensures sid in Run(t, timeout, calls).sessions
    ensures Run(t, timeout, calls).sessions[sid]
         == match LastEnd(calls, sid)
            case None => t.sessions[sid]
            case Some(now) => t.sessions[sid].(end := Some(now), status := SessionClosed)
  {
    if calls != [] {
      var init := calls[..|calls| - 1];
      EndedSessionOverRuns(t, timeout, init, sid);
      EndedSessionChangesExactly(Run(t, timeout, init), calls[|calls| - 1].0, timeout, calls[|calls| - 1].1, sid);
    }
  }

  // ---- the mutable partition ----

  class LeasePartition {
    var instances: seq<Instance>
    var sessions: map<Id, Session>
    var segments: seq<Segment>
    var gaps: seq<LeaseGap>

    ghost function Contents(): Tables
      reads this
    {
      Tables(instances, sessions, segments, gaps)
    }

    constructor ()
      ensures Contents() == EMPTY
    {
      instances, sessions, segments, gaps := [], map[], [], [];
    }

    method RecoverOrphans(now: int, timeout: int, exclude: Option<Id>, w: GapWriting) returns (recovered: Option<nat>)
      modifies this
      ensures Contents() == Recover(old(Contents()), now, timeout, exclude, w)
      ensures recovered.None? <==> CutOff(old(Contents()), now, timeout, exclude, w)
      ensures recovered.Some? ==> recovered.value == |ExpiredRows(old(instances), now, timeout, exclude)|
    {
      var rows := ExpiredRows(instances, now, timeout, exclude);
      for k := 0 to |rows|
        invariant Contents() == OrphanAll(old(Contents()), rows[..k], timeout)
      {
        var end := LeaseEnd(rows[k], timeout);
        assert rows[..k + 1][..k] == rows[..k];
        instances := OrphanInstance(instances, rows[k].id, end);
        sessions := EndSessions(sessions, rows[k].id, end, SessionOrphaned);
        segments := SetOpenSegments(segments, rows[k].id, None, end, Orphaned);
      }
      assert rows[..|rows|] == rows;
      ghost var orphaned := OrphanAll(old(Contents()), rows, timeout);
      for k := 0 to |rows|
        invariant Contents() == orphaned.(gaps := orphaned.gaps + LeaseGaps(rows, now, timeout)[..k])
        invariant k <= Written(|rows|, w)
      {
        if w.Stopped? && k == w.written {
          return None;
        }
        gaps := gaps + [LeaseGap(LeaseEnd(rows[k], timeout), now, rows[k].id)];
      }
      recovered := Some(|rows|);
    }

    method Beat(now: int, timeout: int, id: Id, w: GapWriting) returns (done: bool)
      modifies this
      ensures Contents() == Heartbeat(old(Contents()), now, timeout, id, w)
      ensures done <==> !Aborted(old(Contents()), now, timeout, id, w)
    {
      var recovered := RecoverOrphans(now, timeout, Some(id), w);
      if recovered.None? && !w.caught {
        return false;
      }
      instances := TouchActive(instances, id, now);
      sessions := TouchSessions(sessions, id, now);
      segments := SetOpenSegments(segments, id, None, now, Open);
      return true;
    }

    method Begin(now: int, timeout: int, id: Id, w: GapWriting) returns (started: bool)
      modifies this
      ensures Contents() == StartInstance(old(Contents()), now, timeout, id, w)
      ensures started <==> !CutOff(old(Contents()), now, timeout, None, w)
                           && !HasInstance(Recover(old(Contents()), now, timeout, None, w).instances, id)
    {
      var recovered := RecoverOrphans(now, timeout, None, w);
      started := recovered.Some? && !HasInstance(instances, id);
      if started {
        instances := instances + [Instance(id, now, now, None, Active)];
      }
    }

    method Finish(now: int, timeout: int, id: Id, w: GapWriting)
      modifies this
      ensures Contents() == EndInstance(old(Contents()), now, timeout, id, w)
    {
      var done := Beat(now, timeout, id, w);
      if !done {
        return;
      }
      instances := CloseActive(instances, id, now);
      sessions := EndSessions(sessions, id, now, SessionClosed);
      segments := SetOpenSegments(segments, id, None, now, Closed);
    }

    method BeginSession(now: int, sid: Id, stream: Stream, id: Id) returns (started: bool)
      modifies this
      ensures Contents() == StartSession(old(Contents()), now, sid, stream, id)
      ensures started <==> sid !in old(sessions)
    {
      started := sid !in sessions;
      if started {
        sessions := sessions[sid := Session(stream, now, None, Connected, id, now)];
        segments := segments + [Segment(id, stream, now, now, stream == Trade, Open)];
      }
    }

    method SetDepthState(now: int, id: Id, valid: bool, inserted: bool)
      modifies this
      ensures Contents() == DepthState(old(Contents()), now, id, valid, inserted)
    {
      segments := SetOpenSegments(segments, id, Some(Depth), now, Closed);
      if inserted {
        segments := segments + [Segment(id, Depth, now, now, valid, Open)];
      }
    }

    method FinishSession(now: int, sid: Id)
      modifies this
      ensures Contents() == EndSession(old(Contents()), now, sid)
    {
      if sid in sessions {
        var row := sessions[sid];
        sessions := sessions[sid := row.(end := Some(now), status := SessionClosed)];
        segments := SetOpenSegments(segments, row.instance, Some(row.stream), now, Closed);
      }
    }
  }
}
