/**
 Same-directory durable publication of one target file.  Publishers take the
 target's lock, optionally compare its digest, write and sync a temporary file,
 replace the target, set a flag, sync the directory and leave the lock.
 Publishers interleave at every step, may raise or die at every step, and the
 host may crash, which loses any replacement whose directory entry was not
 synced.  Digests are injective, so
 an expected digest is modelled by the content it identifies.
 */
module Publication {
  import opened Options
  import opened Moments

  type Bytes = seq<int>
  type Publisher = nat

  // How a publication may treat the content it finds.
  datatype Mode = Overwrite | Swap(expected: Option<Bytes>) | Immutable

  datatype Request = Request(payload: Bytes, mode: Mode)

  datatype Outcome =
    | Confirmed(version: nat)       // returned normally after the directory sync
    | AlreadyThere                  // immutable artifact with the same bytes
    | Conflict                      // stale or different content, target preserved
    | Failed                        // any other exception
    | PublicationUncertain          // raised by the handler once the flag is set
    | Killed                        // the process was gone before it could report

  datatype Phase =
    | Waiting
    | Holding                       // lock held, target not yet inspected
    | Writing(temp: Bytes)          // temporary file so far
    | Synced(temp: Bytes)           // temporary file complete and on disk
    | Unflagged(version: nat)       // target replaced, the `replaced` flag not yet set
    | Flagged(version: nat)         // flag set, directory not yet synced
    | Handling                      // in the handler of an exception that came after the flag
    | Leaving(outcome: Outcome)     // outcome decided, on the way out of the lock
    | Finished(outcome: Outcome)

  datatype Job = Job(request: Request, phase: Phase)

  // One version of the target: the content, the mode it was published under, and by whom.
  datatype Version = Version(content: Option<Bytes>, mode: Mode, author: Option<Publisher>)

  datatype State = State(
    history: seq<Version>,          // the last version is what readers see
    durable: nat,                   // versions up to here survive a host crash
    lock: Option<Publisher>,
    jobs: map<Publisher, Job>,
    submitted: set<Bytes>)

  datatype Event =
    | Submit(who: Publisher, request: Request)
    | TakeLock(who: Publisher)
    | Inspect(who: Publisher)
    | WriteSome(who: Publisher, upto: nat)
    | SyncTemp(who: Publisher)
    | ReplaceTarget(who: Publisher)
    | SetFlag(who: Publisher)
    | SyncDirectory(who: Publisher)
    | ReportUncertain(who: Publisher)
    | Unlock(who: Publisher)
    | Raise(who: Publisher, keepsLock: bool)  // an exception at the current step; does the unlock not happen?
    | Die(who: Publisher)           // the process is gone, its lock with it
    | HostCrash(version: nat)       // what the directory shows after reboot

  function Visible(s: State): Option<Bytes>
    requires s.history != []
  {
    s.history[|s.history| - 1].content
  }

  predicate InLock(p: Phase) {
    !p.Waiting? && !p.Finished?
  }

  // What the inspection of the target decides: None means go on and write.
  function Verdict(mode: Mode, payload: Bytes, found: Option<Bytes>): Option<Outcome> {
    match mode
    case Overwrite => None
    case Swap(expected) => if found != expected then Some(Conflict) else None
    case Immutable =>
      if found.None? then None else if found.value == payload then Some(AlreadyThere) else Some(Conflict)
  }

  // An exception: only after the flag does the handler know of the replacement, and an exception on the
  // way out of the lock takes the place of whatever was to be reported.
  function Raised(p: Phase): Phase {
    match p
    case Waiting => Finished(Failed)
    case Flagged(_) => Handling
    case Leaving(_) => Finished(Failed)
    case Finished(_) => p
    case _ => Leaving(Failed)
  }

  // Where a publisher's own event takes it, given what it finds.
  function Next(p: Phase, e: Event, request: Request, found: Option<Bytes>, free: bool, version: nat): Phase {
    match e
    case TakeLock(_) => if p.Waiting? && free then Holding else p
    case Inspect(_) =>
      if !p.Holding? then p
      else
        var verdict := Verdict(request.mode, request.payload, found);
        if verdict.Some? then Leaving(verdict.value) else Writing([])
    case WriteSome(_, upto) => if p.Writing? && upto <= |request.payload| then Writing(request.payload[..upto]) else p
    case SyncTemp(_) => if p.Writing? && p.temp == request.payload then Synced(p.temp) else p
    case ReplaceTarget(_) => if p.Synced? then Unflagged(version) else p
    case SetFlag(_) => if p.Unflagged? then Flagged(p.version) else p
    case SyncDirectory(_) => if p.Flagged? then Leaving(Confirmed(p.version)) else p
    case ReportUncertain(_) => if p.Handling? then Leaving(PublicationUncertain) else p
    case Unlock(_) => if p.Leaving? then Finished(p.outcome) else p
    case Raise(_, _) => Raised(p)
    case Die(_) => if p.Finished? then p else Finished(Killed)
    case _ => p
  }

  // The event makes its publisher let go of the lock.
  predicate LetsGo(p: Phase, e: Event) {
    e.Die? || (p.Leaving? && (e.Unlock? || (e.Raise? && !e.keepsLock)))
  }

  function LockAfter(lock: Option<Publisher>, p: Phase, e: Event): Option<Publisher>
    requires !e.HostCrash?
  {
    if e.TakeLock? && p.Waiting? && lock.None? then Some(e.who)
    else if lock == Some(e.who) && LetsGo(p, e) then None
    else lock
  }

  function OwnStep(s: State, e: Event): State
    requires s.history != [] && !e.HostCrash? && e.who in s.jobs
  {
    var job := s.jobs[e.who];
    var p := Next(job.phase, e, job.request, Visible(s), s.lock.None?, |s.history|);
    State(if e.ReplaceTarget? && job.phase.Synced?
          then s.history + [Version(Some(job.phase.temp), job.request.mode, Some(e.who))] else s.history,
          if e.SyncDirectory? && job.phase.Flagged? then |s.history| - 1 else s.durable,
          LockAfter(s.lock, job.phase, e), s.jobs[e.who := job.(phase := p)], s.submitted)
  }

  function Crashed(jobs: map<Publisher, Job>): map<Publisher, Job> {
    map who | who in jobs :: if jobs[who].phase.Finished? then jobs[who] else jobs[who].(phase := Finished(Killed))
  }

  function Step(s: State, e: Event): (after: State)
    requires s.history != []
    ensures after.history != [] && after.history[0] == s.history[0]
  {
    if e.HostCrash? then
      if s.durable <= e.version < |s.history|
      then s.(history := s.history[..e.version + 1], lock := None, jobs := Crashed(s.jobs)) else s
    else if e.who in s.jobs then OwnStep(s, e)
    else if e.Submit? then
      s.(jobs := s.jobs[e.who := Job(e.request, Waiting)], submitted := s.submitted + {e.request.payload})
    else s
  }

  // ---- the invariant ----

  // What the version before must hold, by the mode of the version after it.
  predicate Follows(before: Version, after: Version) {
    match after.mode
    case Overwrite => true
    case Swap(expected) => before.content == expected
    case Immutable => before.content == None
  }

  // Version k is this publisher's, with its payload.
  predicate AuthoredAt(s: State, who: Publisher, k: nat)
    requires who in s.jobs
  {
    && 1 <= k < |s.history| && s.history[k].author == Some(who)
    && s.history[k].content == Some(s.jobs[who].request.payload)
  }

  // The publisher's payload is in the target's history.
  ghost predicate Authored(s: State, who: Publisher) {
    exists k | 0 <= k < |s.history| :: s.history[k].author == Some(who)
  }

  // The phases before the replacement, and the outcomes that never get there.
  predicate BeforeReplace(p: Phase) {
    || p.Waiting? || p.Holding? || p.Writing? || p.Synced?
    || ((p.Leaving? || p.Finished?) && (p.outcome.Conflict? || p.outcome.AlreadyThere?))
  }

  // The phases under the lock in which the target's last version is the publisher's own.
  predicate OwnsLast(p: Phase) {
    || p.Unflagged? || p.Flagged? || p.Handling?
    || (p.Leaving? && (p.outcome.Confirmed? || p.outcome.PublicationUncertain?))
  }

  ghost predicate JobOk(s: State, who: Publisher)
    requires who in s.jobs && s.history != []
  {
    var job := s.jobs[who];
    && job.request.payload in s.submitted
    && (InLock(job.phase) ==> s.lock == Some(who))
    && (job.phase.Writing? || job.phase.Synced? ==> Verdict(job.request.mode, job.request.payload, Visible(s)) == None)
    && (job.phase.Synced? ==> job.phase.temp == job.request.payload)
    && (OwnsLast(job.phase) ==> AuthoredAt(s, who, |s.history| - 1))
    && (job.phase.Unflagged? || job.phase.Flagged? ==> job.phase.version == |s.history| - 1)
    && ((job.phase.Leaving? || job.phase.Finished?) && job.phase.outcome.Confirmed? ==>
          job.phase.outcome.version <= s.durable && AuthoredAt(s, who, job.phase.outcome.version))
    && (BeforeReplace(job.phase) ==> !Authored(s, who))
    && (job.phase.Leaving? ==> !job.phase.outcome.Killed?)
  }

  ghost predicate Chained(history: seq<Version>) {
    forall k | 1 <= k < |history| :: Follows(history[k - 1], history[k])
  }

  ghost predicate HistoryOk(s: State) {
    && s.history != [] && s.durable < |s.history|
    && Chained(s.history)
    && (forall k | 1 <= k < |s.history| :: s.history[k].content.Some? && s.history[k].content.value in s.submitted)
    && (forall k | 0 <= k < |s.history| && s.history[k].author.Some? :: s.history[k].author.value in s.jobs)
  }

  // A publisher that was told of a plain exception may have left the lock behind.
  predicate HoldsLock(p: Phase) {
    InLock(p) || p == Finished(Failed)
  }

  ghost predicate Inv(s: State) {
    && HistoryOk(s)
    && (forall who | who in s.jobs :: JobOk(s, who))
    && (s.lock.Some? ==> s.lock.value in s.jobs && HoldsLock(s.jobs[s.lock.value].phase))
  }

  lemma WritingJobStaysOk(s: State, e: Event)
    requires Inv(s) && (e.Submit? || e.TakeLock? || e.Inspect? || e.WriteSome? || e.SyncTemp?) && e.who in s.jobs
    ensures e.who in Step(s, e).jobs && Step(s, e).history != [] && JobOk(Step(s, e), e.who)
  {
    assert JobOk(s, e.who);
  }

  lemma SyncingJobStaysOk(s: State, e: Event)
    requires Inv(s) && (e.SetFlag? || e.SyncDirectory?) && e.who in s.jobs
    ensures e.who in Step(s, e).jobs && Step(s, e).history != [] && JobOk(Step(s, e), e.who)
  {
    assert JobOk(s, e.who);
  }

  lemma ReplacingJobStaysOk(s: State, e: Event)
    requires Inv(s) && e.ReplaceTarget? && e.who in s.jobs
    ensures e.who in Step(s, e).jobs && Step(s, e).history != [] && JobOk(Step(s, e), e.who)
  {
    assert JobOk(s, e.who);
  }

  lemma LeavingJobStaysOk(s: State, e: Event)
    requires Inv(s) && (e.ReportUncertain? || e.Unlock? || e.Die?) && e.who in s.jobs
    ensures e.who in Step(s, e).jobs && Step(s, e).history != [] && JobOk(Step(s, e), e.who)
  {
    assert JobOk(s, e.who);
  }

  lemma RaisingJobStaysOk(s: State, e: Event)
    requires Inv(s) && e.Raise? && e.who in s.jobs
    ensures e.who in Step(s, e).jobs && Step(s, e).history != [] && JobOk(Step(s, e), e.who)
  {
    assert JobOk(s, e.who);
  }

  lemma ActingJobStaysOk(s: State, e: Event)
    requires Inv(s) && !e.HostCrash? && e.who in s.jobs
    ensures e.who in Step(s, e).jobs && Step(s, e).history != [] && JobOk(Step(s, e), e.who)
  {
    if e.ReplaceTarget? {
      ReplacingJobStaysOk(s, e);
    } else if e.SetFlag? || e.SyncDirectory? {
      SyncingJobStaysOk(s, e);
    } else if e.Raise? {
      RaisingJobStaysOk(s, e);
    } else if e.ReportUncertain? || e.Unlock? || e.Die? {
      LeavingJobStaysOk(s, e);
    } else {
      WritingJobStaysOk(s, e);
    }
  }

  // What a publisher's step does to the rest: it may append a version of its own.
  ghost predicate AppendsAtMost(s: State, after: State, actor: Publisher) {
    && |s.history| <= |after.history| && after.history[..|s.history|] == s.history
    && (forall k | |s.history| <= k < |after.history| :: after.history[k].author == Some(actor))
    && s.durable <= after.durable && s.submitted <= after.submitted
  }

  lemma StepAppendsAtMost(s: State, e: Event)
    requires Inv(s) && !e.HostCrash?
    ensures AppendsAtMost(s, Step(s, e), e.who)
  {
  }

  lemma OthersAreLeftAlone(s: State, e: Event, who: Publisher)
    requires Inv(s) && !e.HostCrash? && who in s.jobs && e.who != who
    ensures who in Step(s, e).jobs && Step(s, e).jobs[who] == s.jobs[who]
    ensures InLock(s.jobs[who].phase) ==> Step(s, e).history == s.history && Step(s, e).lock == s.lock
  {
    assert JobOk(s, who);
    if e.who in s.jobs { assert JobOk(s, e.who); }
  }

  lemma OtherJobStaysOk(s: State, e: Event, who: Publisher)
    requires Inv(s) && !e.HostCrash? && who in s.jobs && e.who != who
    ensures who in Step(s, e).jobs && Step(s, e).history != [] && JobOk(Step(s, e), who)
  {
    StepAppendsAtMost(s, e);
    OthersAreLeftAlone(s, e, who);
    OtherJobUnder(s, Step(s, e), who, e.who);
  }

  lemma OtherJobUnder(s: State, after: State, who: Publisher, actor: Publisher)
    requires Inv(s) && who in s.jobs && actor != who && AppendsAtMost(s, after, actor)
    requires who in after.jobs && after.jobs[who] == s.jobs[who]
    requires InLock(s.jobs[who].phase) ==> after.history == s.history && after.lock == s.lock
    ensures after.history != [] && JobOk(after, who)
  {
    assert JobOk(s, who);
    forall k | 0 <= k < |s.history| ensures after.history[k] == s.history[k] {
      assert after.history[..|s.history|][k] == s.history[k];
    }
  }

  lemma CrashedJobStaysOk(s: State, e: Event, who: Publisher)
    requires Inv(s) && e.HostCrash? && who in s.jobs
    ensures who in Step(s, e).jobs && Step(s, e).history != [] && JobOk(Step(s, e), who)
  {
    assert JobOk(s, who);
  }

  lemma JobStaysOk(s: State, e: Event, who: Publisher)
    requires Inv(s) && who in Step(s, e).jobs
    ensures Step(s, e).history != [] && JobOk(Step(s, e), who)
  {
    if who !in s.jobs {
      NewJobIsOk(s, e, who);
    } else if e.HostCrash? {
      CrashedJobStaysOk(s, e, who);
    } else if e.who == who {
      ActingJobStaysOk(s, e);
    } else {
      OtherJobStaysOk(s, e, who);
    }
  }

  lemma NewJobIsOk(s: State, e: Event, who: Publisher)
    requires Inv(s) && who !in s.jobs && who in Step(s, e).jobs
    ensures Step(s, e).history != [] && JobOk(Step(s, e), who)
  {
  }

  lemma ReplaceKeepsHistory(s: State, e: Event)
    requires Inv(s) && e.ReplaceTarget?
    ensures HistoryOk(Step(s, e))
  {
    if e.who in s.jobs { assert JobOk(s, e.who); }
  }

  lemma SameHistoryStaysOk(s: State, after: State)
    requires HistoryOk(s) && after.history == s.history && after.durable < |after.history|
    requires s.submitted <= after.submitted && s.jobs.Keys <= after.jobs.Keys
    ensures HistoryOk(after)
  {
  }

  lemma HistoryStaysOk(s: State, e: Event)
    requires Inv(s)
    ensures HistoryOk(Step(s, e))
  {
    if e.ReplaceTarget? {
      ReplaceKeepsHistory(s, e);
    } else if !e.HostCrash? {
      SameHistoryStaysOk(s, Step(s, e));
    }
  }

  // Whoever holds the lock and does not let go still holds it.
  lemma StillHoldsLock(p: Phase, e: Event, request: Request, found: Option<Bytes>, free: bool, version: nat)
    requires HoldsLock(p) && !LetsGo(p, e)
    ensures HoldsLock(Next(p, e, request, found, free, version))
  {
  }

  lemma LockStaysOk(s: State, e: Event)
    requires Inv(s)
    ensures var after := Step(s, e);
            after.lock.Some? ==> after.lock.value in after.jobs && HoldsLock(after.jobs[after.lock.value].phase)
  {
    if !e.HostCrash? && e.who in s.jobs && s.lock == Some(e.who) && !LetsGo(s.jobs[e.who].phase, e) {
      StillHoldsLock(s.jobs[e.who].phase, e, s.jobs[e.who].request, Visible(s), s.lock.None?, |s.history|);
    }
  }

  lemma StepKeepsInv(s: State, e: Event)
    requires Inv(s)
    ensures Inv(Step(s, e))
  {
    var after := Step(s, e);
    forall who | who in after.jobs ensures JobOk(after, who) { JobStaysOk(s, e, who); }
    HistoryStaysOk(s, e);
    LockStaysOk(s, e);
  }

  // ---- what every reachable state satisfies ----

  function Run(s: State, events: seq<Event>): (end: State)
    requires s.history != []
    ensures end.history != [] && end.history[0] == s.history[0]
  {
    if events == [] then s else Step(Run(s, events[..|events| - 1]), events[|events| - 1])
  }

  lemma {:induction false} EveryRunKeepsInv(s: State, events: seq<Event>)
    requires Inv(s)
    ensures Inv(Run(s, events))
  {
    if events != [] {
      EveryRunKeepsInv(s, events[..|events| - 1]);
      StepKeepsInv(Run(s, events[..|events| - 1]), events[|events| - 1]);
    }
  }

  function Initial(content: Option<Bytes>): State {
    State([Version(content, Overwrite, None)], 0, None, map[], {})
  }

  lemma RunsStartWithInv(content: Option<Bytes>)
    ensures Inv(Initial(content))
  {
  }

  // Under any interleaving and any crashes, readers see the initial content or one whole submitted payload.
  lemma TargetIsAlwaysWhole(content: Option<Bytes>, events: seq<Event>)
    ensures var end := Run(Initial(content), events);
            Visible(end) == content || (Visible(end).Some? && Visible(end).value in end.submitted)
  {
    EveryRunKeepsInv(Initial(content), events);
  }

  // Compare-and-swap versions form one chain: each was published over exactly the
  // content it expected, so no update is lost.
  lemma SwapsFormOneChain(content: Option<Bytes>, events: seq<Event>, k: nat)
    requires var end := Run(Initial(content), events); 1 <= k < |end.history| && end.history[k].mode.Swap?
    ensures var end := Run(Initial(content), events); end.history[k - 1].content == end.history[k].mode.expected
  {
    var end := Run(Initial(content), events);
    EveryRunKeepsInv(Initial(content), events);
    assert Follows(end.history[k - 1], end.history[k]);
  }

  // ---- what a publisher is told ----

  // The exception hides the publisher's version: it comes before the flag, inside the handler, or on the
  // way out of the lock.
  predicate Hides(s: State, e: Event, who: Publisher) {
    && e.Raise? && e.who == who && who in s.jobs
    && var p := s.jobs[who].phase;
       p.Unflagged? || p.Handling? || (p.Leaving? && (p.outcome.Confirmed? || p.outcome.PublicationUncertain?))
  }

  ghost function Hiding(s: State, events: seq<Event>, who: Publisher): int -> bool
    requires s.history != []
  {
    i => 0 <= i < |events| && Hides(Run(s, events[..i]), events[i], who)
  }

  // At some moment of the run an exception hid the publisher's version.
  ghost predicate HiddenIn(s: State, events: seq<Event>, who: Publisher)
    requires s.history != []
  {
    Ever(Hiding(s, events, who), |events|)
  }

  lemma RunUpTo(s: State, events: seq<Event>, i: nat)
    requires s.history != [] && i < |events|
    ensures Run(s, events[..i + 1]) == Step(Run(s, events[..i]), events[i])
  {
    assert events[..i + 1][..i] == events[..i];
  }

  predicate FailedPhase(p: Phase) {
    (p.Leaving? || p.Finished?) && p.outcome.Failed?
  }

  // What the phase says about the past: a hidden version ends in a plain exception or death, and a plain
  // exception without one means there is no version.
  ghost predicate ToldOk(s: State, who: Publisher, hidden: bool) {
    if who !in s.jobs then !hidden
    else
      && (hidden ==> FailedPhase(s.jobs[who].phase) || s.jobs[who].phase == Finished(Killed))
      && (FailedPhase(s.jobs[who].phase) && !hidden ==> !Authored(s, who))
  }

  // Only its own replacement makes a publisher an author.
  lemma AuthoredBefore(s: State, e: Event, who: Publisher)
    requires Inv(s) && Authored(Step(s, e), who)
    requires Step(s, e).history == s.history || e.HostCrash? || e.who != who
    ensures Authored(s, who)
  {
    var k :| 0 <= k < |Step(s, e).history| && Step(s, e).history[k].author == Some(who);
    assert k < |s.history| && s.history[k] == Step(s, e).history[k];
  }

  lemma ToldStepOfOther(s: State, e: Event, who: Publisher, hidden: bool)
    requires Inv(s) && ToldOk(s, who, hidden) && (e.HostCrash? || e.who != who)
    ensures ToldOk(Step(s, e), who, hidden)
  {
    if Authored(Step(s, e), who) { AuthoredBefore(s, e, who); }
  }

  lemma ToldStepOfOwn(s: State, e: Event, hidden: bool)
    requires Inv(s) && !e.HostCrash? && ToldOk(s, e.who, hidden)
    ensures ToldOk(Step(s, e), e.who, hidden || Hides(s, e, e.who))
  {
    if e.who in s.jobs { assert JobOk(s, e.who); }
    if Authored(Step(s, e), e.who) && Step(s, e).history == s.history { AuthoredBefore(s, e, e.who); }
  }

  lemma ToldStep(s: State, e: Event, who: Publisher, hidden: bool, after: State, hiddenAfter: bool)
    requires Inv(s) && ToldOk(s, who, hidden) && after == Step(s, e) && hiddenAfter == (hidden || Hides(s, e, who))
    ensures ToldOk(after, who, hiddenAfter)
  {
    if e.HostCrash? || e.who != who { ToldStepOfOther(s, e, who, hidden); } else { ToldStepOfOwn(s, e, hidden); }
  }

  ghost function ToldAt(s: State, events: seq<Event>, who: Publisher): (int, bool) -> bool
    requires s.history != []
  {
    (i, hidden) => 0 <= i <= |events| && ToldOk(Run(s, events[..i]), who, hidden)
  }

  lemma ToldMoment(s: State, events: seq<Event>, i: nat, who: Publisher, hidden: bool)
    requires Inv(s) && i < |events| && ToldOk(Run(s, events[..i]), who, hidden)
    ensures ToldOk(Run(s, events[..i + 1]), who, hidden || Hides(Run(s, events[..i]), events[i], who))
  {
    EveryRunKeepsInv(s, events[..i]);
    RunUpTo(s, events, i);
    ToldStep(Run(s, events[..i]), events[i], who, hidden, Run(s, events[..i + 1]),
             hidden || Hides(Run(s, events[..i]), events[i], who));
  }

  lemma ToldIsKept(s: State, events: seq<Event>, who: Publisher)
    requires Inv(s)
    ensures Kept(ToldAt(s, events, who), Hiding(s, events, who), |events|)
  {
    var ok, hit := ToldAt(s, events, who), Hiding(s, events, who);
    forall i, hidden | 0 <= i < |events| ensures KeptAt(ok, hit, i, hidden) {
      if ok(i, hidden) { ToldMoment(s, events, i, who, hidden); }
    }
  }

  lemma ToldThroughout(s: State, events: seq<Event>, who: Publisher)
    requires Inv(s) && s.jobs == map[]
    ensures ToldAt(s, events, who)(|events|, HiddenIn(s, events, who))
  {
    ToldIsKept(s, events, who);
    assert events[..0] == [];
    Throughout(ToldAt(s, events, who), Hiding(s, events, who), |events|);
  }

  lemma RunToldOk(s: State, events: seq<Event>, who: Publisher)
    requires Inv(s) && s.jobs == map[]
    ensures ToldOk(Run(s, events), who, HiddenIn(s, events, who))
  {
    ToldThroughout(s, events, who);
    assert events[..|events|] == events;
  }

  // Without a host crash, a version that was put into the history stays there.
  ghost predicate ReplacedOk(s: State, who: Publisher, hidden: bool) {
    hidden || (who in s.jobs && s.jobs[who].phase == Finished(PublicationUncertain)) ==> Authored(s, who)
  }

  lemma AuthoredStays(s: State, e: Event, who: Publisher)
    requires Inv(s) && !e.HostCrash? && Authored(s, who)
    ensures Authored(Step(s, e), who)
  {
    var k :| 0 <= k < |s.history| && s.history[k].author == Some(who);
    assert Step(s, e).history[k] == s.history[k];
  }

  lemma ReplacedStep(s: State, e: Event, who: Publisher, hidden: bool, after: State, hiddenAfter: bool)
    requires Inv(s) && !e.HostCrash? && ReplacedOk(s, who, hidden)
    requires after == Step(s, e) && hiddenAfter == (hidden || Hides(s, e, who))
    ensures ReplacedOk(after, who, hiddenAfter)
  {
    if who in s.jobs { assert JobOk(s, who); }
    if Authored(s, who) { AuthoredStays(s, e, who); }
  }

  lemma ReplacedMoment(s: State, events: seq<Event>, i: nat, who: Publisher, hidden: bool)
    requires Inv(s) && i < |events| && !events[i].HostCrash? && ReplacedOk(Run(s, events[..i]), who, hidden)
    ensures ReplacedOk(Run(s, events[..i + 1]), who, hidden || Hides(Run(s, events[..i]), events[i], who))
  {
    EveryRunKeepsInv(s, events[..i]);
    RunUpTo(s, events, i);
    ReplacedStep(Run(s, events[..i]), events[i], who, hidden, Run(s, events[..i + 1]),
                 hidden || Hides(Run(s, events[..i]), events[i], who));
  }

  ghost function ReplacedAt(s: State, events: seq<Event>, who: Publisher): (int, bool) -> bool
    requires s.history != []
  {
    (i, hidden) => 0 <= i <= |events| && ReplacedOk(Run(s, events[..i]), who, hidden)
  }

  lemma ReplacedIsKept(s: State, events: seq<Event>, who: Publisher)
    requires Inv(s) && forall i | 0 <= i < |events| :: !events[i].HostCrash?
    ensures Kept(ReplacedAt(s, events, who), Hiding(s, events, who), |events|)
  {
    var ok, hit := ReplacedAt(s, events, who), Hiding(s, events, who);
    forall i, hidden | 0 <= i < |events| ensures KeptAt(ok, hit, i, hidden) {
      if ok(i, hidden) { ReplacedMoment(s, events, i, who, hidden); }
    }
  }

  lemma ReplacedThroughout(s: State, events: seq<Event>, who: Publisher)
    requires Inv(s) && s.jobs == map[] && forall i | 0 <= i < |events| :: !events[i].HostCrash?
    ensures ReplacedAt(s, events, who)(|events|, HiddenIn(s, events, who))
  {
    ReplacedIsKept(s, events, who);
    assert events[..0] == [];
    Throughout(ReplacedAt(s, events, who), Hiding(s, events, who), |events|);
  }

  lemma RunReplacedOk(s: State, events: seq<Event>, who: Publisher)
    requires Inv(s) && s.jobs == map[] && forall i | 0 <= i < |events| :: !events[i].HostCrash?
    ensures ReplacedOk(Run(s, events), who, HiddenIn(s, events, who))
  {
    ReplacedThroughout(s, events, who);
    assert events[..|events|] == events;
  }

  // The publisher was told this outcome.
  predicate Told(s: State, who: Publisher, outcome: Outcome) {
    who in s.jobs && s.jobs[who].phase == Finished(outcome) && !outcome.Killed?
  }

  // In every run: a publisher that met a conflict or found its bytes there never put a version into the
  // history, nor did one that got a plain exception which hid nothing; one that returned normally did.
  lemma RefusedNeverReplaces(content: Option<Bytes>, events: seq<Event>, who: Publisher, outcome: Outcome)
    requires Told(Run(Initial(content), events), who, outcome)
    ensures var end := Run(Initial(content), events);
            && (outcome.Conflict? || outcome.AlreadyThere? ==> !Authored(end, who))
            && (outcome.Failed? && !HiddenIn(Initial(content), events, who) ==> !Authored(end, who))
            && (outcome.Confirmed? ==> Authored(end, who))
            && (HiddenIn(Initial(content), events, who) ==> outcome.Failed?)
  {
    EveryRunKeepsInv(Initial(content), events);
    assert JobOk(Run(Initial(content), events), who);
    RunToldOk(Initial(content), events, who);
  }

  // What the publisher was told is true: it put a version into the history exactly when it was told
  // that it succeeded or that it is uncertain.
  ghost predicate ToldTheTruth(s: State, who: Publisher, outcome: Outcome) {
    Authored(s, who) <==> outcome.Confirmed? || outcome.PublicationUncertain?
  }

  // In every run without a host crash, what a publisher was told is true if and only if no exception
  // came before the flag, inside the handler or on the way out of the lock after its replacement.
  lemma UncertainExactlyAfterReplace(content: Option<Bytes>, events: seq<Event>, who: Publisher, outcome: Outcome)
    requires forall i | 0 <= i < |events| :: !events[i].HostCrash?
    requires Told(Run(Initial(content), events), who, outcome)
    ensures ToldTheTruth(Run(Initial(content), events), who, outcome) <==> !HiddenIn(Initial(content), events, who)
  {
    RefusedNeverReplaces(content, events, who, outcome);
    RunReplacedOk(Initial(content), events, who);
  }

  // So everybody was told the truth exactly when nobody who was told anything had a version hidden.
  lemma EverybodyToldTheTruth(content: Option<Bytes>, events: seq<Event>)
    requires forall i | 0 <= i < |events| :: !events[i].HostCrash?
    ensures var end := Run(Initial(content), events);
            (forall who, outcome | Told(end, who, outcome) :: ToldTheTruth(end, who, outcome))
            <==> (forall who, outcome | Told(end, who, outcome) :: !HiddenIn(Initial(content), events, who))
  {
    var end := Run(Initial(content), events);
    forall who, outcome | Told(end, who, outcome)
      ensures ToldTheTruth(end, who, outcome) <==> !HiddenIn(Initial(content), events, who)
    {
      UncertainExactlyAfterReplace(content, events, who, outcome);
    }
  }

  // ---- why a publisher that wrote nothing was refused ----

  // The request finds exactly its own bytes, or content that rules it out.
  predicate FindsItself(r: Request, found: Option<Bytes>) {
    r.mode.Immutable? && found == Some(r.payload)
  }

  predicate FindsOther(r: Request, found: Option<Bytes>) {
    || (r.mode.Immutable? && found.Some? && found.value != r.payload)
    || (r.mode.Swap? && found != r.mode.expected)
  }

  // What a publisher under the lock decides when it looks at the target.
  lemma InspectExactly(s: State, who: Publisher)
    requires Inv(s) && who in s.jobs && s.jobs[who].phase.Holding?
    ensures var p, r := Step(s, Inspect(who)).jobs[who].phase, s.jobs[who].request;
            && (p == Leaving(AlreadyThere) <==> FindsItself(r, Visible(s)))
            && (p == Leaving(Conflict) <==> FindsOther(r, Visible(s)))
            && (p == Writing([]) <==> !FindsItself(r, Visible(s)) && !FindsOther(r, Visible(s)))
  {
  }

  // The publisher looks at the target under the lock and finds the reason for this outcome.
  predicate Explains(s: State, e: Event, who: Publisher, r: Request, outcome: Outcome)
    requires s.history != []
  {
    && e == Inspect(who) && who in s.jobs && s.jobs[who].request == r && s.lock == Some(who)
    && (outcome == AlreadyThere ==> FindsItself(r, Visible(s))) && (outcome == Conflict ==> FindsOther(r, Visible(s)))
  }

  ghost function Explaining(s: State, events: seq<Event>, who: Publisher, r: Request, outcome: Outcome): int -> bool
    requires s.history != []
  {
    i => 0 <= i < |events| && Explains(Run(s, events[..i]), events[i], who, r, outcome)
  }

  ghost predicate ExplainedOk(s: State, who: Publisher, r: Request, outcome: Outcome, explained: bool) {
    who in s.jobs && s.jobs[who].request == r
    && ((s.jobs[who].phase.Leaving? || s.jobs[who].phase.Finished?) && s.jobs[who].phase.outcome == outcome)
    ==> explained
  }

  lemma ExplainedOther(s: State, e: Event, who: Publisher, r: Request, outcome: Outcome, explained: bool)
    requires Inv(s) && (outcome == AlreadyThere || outcome == Conflict) && ExplainedOk(s, who, r, outcome, explained)
    requires e.HostCrash? || e.who != who
    ensures ExplainedOk(Step(s, e), who, r, outcome, explained)
  {
  }

  lemma ExplainedOwn(s: State, e: Event, r: Request, outcome: Outcome, explained: bool)
    requires Inv(s) && (outcome == AlreadyThere || outcome == Conflict) && !e.HostCrash?
    requires ExplainedOk(s, e.who, r, outcome, explained)
    ensures ExplainedOk(Step(s, e), e.who, r, outcome, explained || Explains(s, e, e.who, r, outcome))
  {
    if e.who in s.jobs {
      assert JobOk(s, e.who);
      if e.Inspect? && s.jobs[e.who].phase.Holding? { InspectExactly(s, e.who); }
    }
  }

  lemma ExplainedStep(s: State, e: Event, who: Publisher, r: Request, outcome: Outcome, explained: bool)
    requires Inv(s) && (outcome == AlreadyThere || outcome == Conflict) && ExplainedOk(s, who, r, outcome, explained)
    ensures ExplainedOk(Step(s, e), who, r, outcome, explained || Explains(s, e, who, r, outcome))
  {
    if e.HostCrash? || e.who != who {
      ExplainedOther(s, e, who, r, outcome, explained);
    } else {
      ExplainedOwn(s, e, r, outcome, explained);
    }
  }

  lemma ExplainedMoment(s: State, events: seq<Event>, i: nat, who: Publisher, r: Request, outcome: Outcome,
                        explained: bool)
    requires Inv(s) && i < |events| && (outcome == AlreadyThere || outcome == Conflict)
    requires ExplainedOk(Run(s, events[..i]), who, r, outcome, explained)
    ensures ExplainedOk(Run(s, events[..i + 1]), who, r, outcome,
                        explained || Explains(Run(s, events[..i]), events[i], who, r, outcome))
  {
    EveryRunKeepsInv(s, events[..i]);
    RunUpTo(s, events, i);
    ExplainedStep(Run(s, events[..i]), events[i], who, r, outcome, explained);
  }

  ghost function ExplainedAt(s: State, events: seq<Event>, who: Publisher, r: Request, outcome: Outcome):
    (int, bool) -> bool
    requires s.history != []
  {
    (i, explained) => 0 <= i <= |events| && ExplainedOk(Run(s, events[..i]), who, r, outcome, explained)
  }

  lemma ExplainedIsKept(s: State, events: seq<Event>, who: Publisher, r: Request, outcome: Outcome)
    requires Inv(s) && (outcome == AlreadyThere || outcome == Conflict)
    ensures Kept(ExplainedAt(s, events, who, r, outcome), Explaining(s, events, who, r, outcome), |events|)
  {
    var ok, hit := ExplainedAt(s, events, who, r, outcome), Explaining(s, events, who, r, outcome);
    forall i, explained | 0 <= i < |events| ensures KeptAt(ok, hit, i, explained) {
      if ok(i, explained) { ExplainedMoment(s, events, i, who, r, outcome, explained); }
    }
  }

  // At some moment of the run the publisher found the reason.
  ghost predicate ExplainedIn(s: State, events: seq<Event>, who: Publisher, r: Request, outcome: Outcome)
    requires s.history != []
  {
    Ever(Explaining(s, events, who, r, outcome), |events|)
  }

  lemma ExplainedThroughout(s: State, events: seq<Event>, who: Publisher, r: Request, outcome: Outcome)
    requires Inv(s) && s.jobs == map[] && (outcome == AlreadyThere || outcome == Conflict)
    ensures ExplainedAt(s, events, who, r, outcome)(|events|, ExplainedIn(s, events, who, r, outcome))
  {
    ExplainedIsKept(s, events, who, r, outcome);
    assert events[..0] == [];
    Throughout(ExplainedAt(s, events, who, r, outcome), Explaining(s, events, who, r, outcome), |events|);
  }

  lemma RunExplainedOk(s: State, events: seq<Event>, who: Publisher, r: Request, outcome: Outcome, end: State)
    requires Inv(s) && s.jobs == map[] && (outcome == AlreadyThere || outcome == Conflict) && end == Run(s, events)
    ensures ExplainedOk(end, who, r, outcome, ExplainedIn(s, events, who, r, outcome))
  {
    ExplainedThroughout(s, events, who, r, outcome);
    assert events[..|events|] == events;
  }

  // In every run, a publisher told AlreadyThere was immutable and found exactly its payload under the lock;
  // one told Conflict found other bytes (immutable) or not the content it expected (compare-and-swap).
  lemma RefusalsAreExplained(s: State, events: seq<Event>, who: Publisher, outcome: Outcome, end: State)
    requires Inv(s) && s.jobs == map[] && end == Run(s, events) && Told(end, who, outcome)
    requires outcome == AlreadyThere || outcome == Conflict
    ensures ExplainedIn(s, events, who, end.jobs[who].request, outcome)
  {
    RunExplainedOk(s, events, who, end.jobs[who].request, outcome, end);
  }

  // ---- an undisturbed publication ----

  // The publisher at some phase under the lock, with everything else as it was.
  function Under(s: State, who: Publisher, phase: Phase): State
    requires who in s.jobs
  {
    s.(lock := Some(who), jobs := s.jobs[who := s.jobs[who].(phase := phase)])
  }

  predicate MayStart(s: State, who: Publisher) {
    s.history != [] && who in s.jobs && s.jobs[who].phase == Waiting && s.lock == None
  }

  // Taking the lock and looking: it is refused, or goes on to write.
  lemma UndisturbedStart(s: State, who: Publisher)
    requires MayStart(s, who)
    ensures var r := s.jobs[who].request;
            var p := if FindsItself(r, Visible(s)) then Leaving(AlreadyThere)
                     else if FindsOther(r, Visible(s)) then Leaving(Conflict) else Writing([]);
            Step(Step(s, TakeLock(who)), Inspect(who)) == Under(s, who, p)
  {
  }

  lemma UndisturbedWrite(s: State, who: Publisher)
    requires MayStart(s, who)
    ensures var payload := s.jobs[who].request.payload;
            && Step(Under(s, who, Writing([])), WriteSome(who, |payload|)) == Under(s, who, Writing(payload))
            && Step(Under(s, who, Writing(payload)), SyncTemp(who)) == Under(s, who, Synced(payload))
  {
    assert s.jobs[who].request.payload[..|s.jobs[who].request.payload|] == s.jobs[who].request.payload;
  }

  // The history with the publisher's version added.
  function WithVersion(s: State, who: Publisher): State
    requires who in s.jobs
  {
    s.(history := s.history + [Version(Some(s.jobs[who].request.payload), s.jobs[who].request.mode, Some(who))])
  }

  lemma UndisturbedReplace(s: State, who: Publisher)
    requires MayStart(s, who)
    ensures var payload, v := s.jobs[who].request.payload, |s.history|;
            && Step(Under(s, who, Synced(payload)), ReplaceTarget(who)) == Under(WithVersion(s, who), who, Unflagged(v))
            && Step(Under(WithVersion(s, who), who, Unflagged(v)), SetFlag(who))
                 == Under(WithVersion(s, who), who, Flagged(v))
  {
  }

  lemma UndisturbedEnd(s: State, who: Publisher, version: nat, end: State)
    requires s.history != [] && who in s.jobs && version == |s.history| - 1
    requires end == Step(Step(Under(s, who, Flagged(version)), SyncDirectory(who)), Unlock(who))
    ensures Told(end, who, Confirmed(version)) && end.history == s.history && end.durable == version && end.lock == None
  {
  }

  lemma RunOne(s: State, e: Event)
    requires s.history != []
    ensures Run(s, [e]) == Step(s, e)
  {
    assert [e][..0] == [];
  }

  lemma RunAppends(s: State, a: seq<Event>, b: seq<Event>)
    requires s.history != []
    ensures Run(s, a + b) == Run(Run(s, a), b)
    decreases |b|
  {
    if b == [] {
      assert a + b == a;
    } else {
      RunAppends(s, a, b[..|b| - 1]);
      assert (a + b)[..|a + b| - 1] == a + b[..|b| - 1];
    }
  }

  lemma RunTwo(s: State, a: Event, b: Event, mid: State, end: State)
    requires s.history != [] && mid.history != [] && Run(s, [a]) == mid && Run(mid, [b]) == end
    ensures Run(s, [a, b]) == end
  {
    assert [a] + [b] == [a, b];
    RunAppends(s, [a], [b]);
  }

  function Publishing(who: Publisher, size: nat): seq<Event> {
    [TakeLock(who), Inspect(who)] + [WriteSome(who, size), SyncTemp(who)] + [ReplaceTarget(who), SetFlag(who)]
    + [SyncDirectory(who), Unlock(who)]
  }

  lemma RunWrite(s: State, who: Publisher, writing: State, synced: State)
    requires MayStart(s, who) && writing == Under(s, who, Writing([]))
    requires synced == Under(s, who, Synced(s.jobs[who].request.payload))
    ensures Run(writing, [WriteSome(who, |s.jobs[who].request.payload|), SyncTemp(who)]) == synced
  {
    var payload := s.jobs[who].request.payload;
    var written := Under(s, who, Writing(payload));
    UndisturbedWrite(s, who);
    RunOne(writing, WriteSome(who, |payload|));
    RunOne(written, SyncTemp(who));
    RunTwo(writing, WriteSome(who, |payload|), SyncTemp(who), written, synced);
  }

  lemma RunReplace(s: State, who: Publisher, synced: State, flagged: State)
    requires MayStart(s, who) && synced == Under(s, who, Synced(s.jobs[who].request.payload))
    requires flagged == Under(WithVersion(s, who), who, Flagged(|s.history|))
    ensures Run(synced, [ReplaceTarget(who), SetFlag(who)]) == flagged
  {
    var unflagged := Under(WithVersion(s, who), who, Unflagged(|s.history|));
    UndisturbedReplace(s, who);
    RunOne(synced, ReplaceTarget(who));
    RunOne(unflagged, SetFlag(who));
    RunTwo(synced, ReplaceTarget(who), SetFlag(who), unflagged, flagged);
  }

  lemma RunEnd(s: State, who: Publisher, version: nat, flagged: State, end: State)
    requires s.history != [] && who in s.jobs && version == |s.history| - 1 && flagged
            == Under(s, who, Flagged(version))
    requires end == Run(flagged, [SyncDirectory(who), Unlock(who)])
    ensures Told(end, who, Confirmed(version)) && end.history == s.history && end.durable == version && end.lock == None
  {
    var mid := Step(flagged, SyncDirectory(who));
    RunOne(flagged, SyncDirectory(who));
    RunOne(mid, Unlock(who));
    RunTwo(flagged, SyncDirectory(who), Unlock(who), mid, Step(mid, Unlock(who)));
    UndisturbedEnd(s, who, version, end);
  }

  // Undisturbed, a publisher whose request is not ruled out by what it finds is told that it succeeded,
  // and the target holds its payload, synced, with the lock free.
  lemma UndisturbedPublication(s: State, who: Publisher)
    requires MayStart(s, who)
    requires !FindsItself(s.jobs[who].request, Visible(s)) && !FindsOther(s.jobs[who].request, Visible(s))
    ensures var end := Run(s, Publishing(who, |s.jobs[who].request.payload|));
            && Told(end, who, Confirmed(|s.history|)) && Visible(end) == Some(s.jobs[who].request.payload)
            && |end.history| == |s.history| + 1 && end.history[..|s.history|] == s.history
            && end.durable == |s.history| && end.lock == None
  {
    var payload, v := s.jobs[who].request.payload, |s.history|;
    var a, b := [TakeLock(who), Inspect(who)], [WriteSome(who, |payload|), SyncTemp(who)];
    var c, d := [ReplaceTarget(who), SetFlag(who)], [SyncDirectory(who), Unlock(who)];
    var writing, synced := Under(s, who, Writing([])), Under(s, who, Synced(payload));
    var flagged := Under(WithVersion(s, who), who, Flagged(v));
    assert Run(s, a) == writing by {
      UndisturbedStart(s, who);
      RunOne(s, TakeLock(who));
      RunOne(Step(s, TakeLock(who)), Inspect(who));
      RunTwo(s, TakeLock(who), Inspect(who), Step(s, TakeLock(who)), writing);
    }
    assert Run(writing, b) == synced by { RunWrite(s, who, writing, synced); }
    assert Run(synced, c) == flagged by { RunReplace(s, who, synced, flagged); }
    RunEnd(WithVersion(s, who), who, v, flagged, Run(flagged, d));
    RunAppends(s, a, b);
    RunAppends(s, a + b, c);
    RunAppends(s, a + b + c, d);
  }

  // ---- a lock left behind ----

  // The exception comes on the way out of the lock, and the unlock does not happen.
  predicate KeepsLock(s: State, e: Event, who: Publisher) {
    e.Raise? && e.keepsLock && e.who == who && who in s.jobs && s.jobs[who].phase.Leaving?
  }

  // The process that keeps the lock is gone.
  predicate Frees(s: State, e: Event, who: Publisher) {
    e == Die(who) || (e.HostCrash? && s.durable <= e.version < |s.history|)
  }

  // The publication is over but the lock is still held.
  predicate LockLeft(s: State, who: Publisher) {
    s.lock == Some(who) && who in s.jobs && s.jobs[who].phase.Finished?
  }

  lemma LockLeftOwn(s: State, e: Event)
    requires Inv(s) && !e.HostCrash? && e.who in s.jobs
    ensures LockLeft(Step(s, e), e.who) <==> KeepsLock(s, e, e.who) || (LockLeft(s, e.who) && !Frees(s, e, e.who))
  {
    assert JobOk(s, e.who);
  }

  lemma LockLeftOther(s: State, e: Event, who: Publisher)
    requires Inv(s) && !e.HostCrash? && e.who != who
    ensures LockLeft(Step(s, e), who) <==> LockLeft(s, who)
  {
  }

  lemma LockLeftStep(s: State, e: Event, who: Publisher)
    requires Inv(s)
    ensures LockLeft(Step(s, e), who) <==> KeepsLock(s, e, who) || (LockLeft(s, who) && !Frees(s, e, who))
  {
    if !e.HostCrash? {
      if e.who != who { LockLeftOther(s, e, who); } else if who in s.jobs { LockLeftOwn(s, e); }
    }
  }

  ghost function Keeping(s: State, events: seq<Event>, who: Publisher): int -> bool
    requires s.history != []
  {
    i => 0 <= i < |events| && KeepsLock(Run(s, events[..i]), events[i], who)
  }

  ghost function Freeing(s: State, events: seq<Event>, who: Publisher): int -> bool
    requires s.history != []
  {
    i => 0 <= i < |events| && Frees(Run(s, events[..i]), events[i], who)
  }

  // In every run a publisher whose publication is over still holds the lock if and only if an exception
  // kept it from unlocking and its process has lived on since.
  lemma LockLeftExactly(content: Option<Bytes>, events: seq<Event>, who: Publisher)
    ensures LockLeft(Run(Initial(content), events), who)
       <==> Since(Keeping(Initial(content), events, who), Freeing(Initial(content), events, who), |events|)
  {
    LockLeftUpTo(Initial(content), events, |events|, who);
    assert events[..|events|] == events;
  }

  lemma {:induction false} LockLeftUpTo(s: State, events: seq<Event>, n: nat, who: Publisher)
    requires Inv(s) && s.lock.None? && n <= |events|
    ensures LockLeft(Run(s, events[..n]), who)
       <==> Since(Keeping(s, events, who), Freeing(s, events, who), n)
  {
    if n > 0 {
      LockLeftUpTo(s, events, n - 1, who);
      EveryRunKeepsInv(s, events[..n - 1]);
      RunUpTo(s, events, n - 1);
      LockLeftStep(Run(s, events[..n - 1]), events[n - 1], who);
      SinceStep(Keeping(s, events, who), Freeing(s, events, who), n - 1);
    }
  }

  // While a lock is left behind nobody else gets in.
  lemma LeftLockBlocks(s: State, who: Publisher, other: Publisher)
    requires Inv(s) && LockLeft(s, who)
    ensures Step(s, TakeLock(other)) == s
  {
  }

  ghost predicate KeepsDurable(a: State, b: State)
    requires a.durable < |a.history|
  {
    a.durable <= b.durable < |b.history| && b.history[..a.durable + 1] == a.history[..a.durable + 1]
  }

  lemma StepKeepsDurable(s: State, e: Event)
    requires Inv(s)
    ensures KeepsDurable(s, Step(s, e))
  {
  }

  lemma KeepsDurableComposes(a: State, b: State, c: State)
    requires a.durable < |a.history| && b.durable < |b.history| && KeepsDurable(a, b) && KeepsDurable(b, c)
    ensures KeepsDurable(a, c)
  {
    assert b.history[..a.durable + 1] == b.history[..b.durable + 1][..a.durable + 1];
    assert c.history[..a.durable + 1] == c.history[..b.durable + 1][..a.durable + 1];
  }

  lemma {:induction false} DurablePrefixStays(s: State, events: seq<Event>)
    requires Inv(s)
    ensures KeepsDurable(s, Run(s, events))
  {
    if events != [] {
      var mid := Run(s, events[..|events| - 1]);
      DurablePrefixStays(s, events[..|events| - 1]);
      EveryRunKeepsInv(s, events[..|events| - 1]);
      StepKeepsDurable(mid, events[|events| - 1]);
      KeepsDurableComposes(s, mid, Run(s, events));
    }
  }

  // A publication that returned normally stays in the target's history through every later crash.
  lemma ConfirmedSurvives(s: State, events: seq<Event>, who: Publisher, version: nat)
    requires Inv(s) && who in s.jobs && s.jobs[who].phase == Finished(Confirmed(version))
    ensures var end := Run(s, events);
            version < |end.history| && end.history[version].content == Some(s.jobs[who].request.payload)
  {
    assert JobOk(s, who);
    DurablePrefixStays(s, events);
    var end := Run(s, events);
    assert end.history[version] == end.history[..s.durable + 1][version] == s.history[..s.durable + 1][version];
  }

  // ---- immutable artifacts ----

  ghost predicate OnlyImmutable(s: State) {
    && (forall who | who in s.jobs :: s.jobs[who].request.mode.Immutable?)
    && (forall k | 1 <= k < |s.history| :: s.history[k].mode.Immutable?)
  }

  predicate ImmutableEvent(e: Event) {
    e.Submit? ==> e.request.mode.Immutable?
  }

  lemma {:induction false} OnlyImmutableStays(s: State, events: seq<Event>)
    requires Inv(s) && OnlyImmutable(s) && forall i | 0 <= i < |events| :: ImmutableEvent(events[i])
    ensures OnlyImmutable(Run(s, events))
  {
    if events != [] {
      OnlyImmutableStays(s, events[..|events| - 1]);
      EveryRunKeepsInv(s, events[..|events| - 1]);
      StepKeepsImmutable(Run(s, events[..|events| - 1]), events[|events| - 1]);
    }
  }

  lemma StepKeepsImmutable(s: State, e: Event)
    requires Inv(s) && OnlyImmutable(s) && ImmutableEvent(e)
    ensures OnlyImmutable(Step(s, e))
  {
  }

  // A host crash that takes back a version whose directory entry was never synced.
  predicate TakesBack(s: State, e: Event) {
    e.HostCrash? && s.durable <= e.version < |s.history| - 1
  }

  // A readable immutable artifact changes exactly when a host crash takes back an unsynced version.
  lemma ImmutableKeepsFirstBytes(s: State, e: Event)
    requires Inv(s) && OnlyImmutable(s) && Visible(s).Some?
    ensures Step(s, e).history != []
    ensures Visible(Step(s, e)) != Visible(s) <==> TakesBack(s, e)
  {
    if !e.HostCrash? && e.who in s.jobs { assert JobOk(s, e.who); }
    if TakesBack(s, e) { assert Follows(s.history[e.version], s.history[e.version + 1]); }
  }

  // Over a whole run the first bytes stay readable at every moment exactly when no crash takes them back.
  lemma FirstBytesStayExactly(s: State, events: seq<Event>)
    requires Inv(s) && OnlyImmutable(s) && forall i | 0 <= i < |events| :: ImmutableEvent(events[i])
    requires Visible(s).Some?
    ensures (forall i | 0 <= i <= |events| :: Visible(Run(s, events[..i])) == Visible(s))
       <==> (forall i | 0 <= i < |events| :: !TakesBack(Run(s, events[..i]), events[i]))
  {
    if forall i | 0 <= i < |events| :: !TakesBack(Run(s, events[..i]), events[i]) {
      forall i | 0 <= i <= |events| ensures Visible(Run(s, events[..i])) == Visible(s) {
        FirstBytesStayUpTo(s, events, i);
      }
    }
    if forall i | 0 <= i <= |events| :: Visible(Run(s, events[..i])) == Visible(s) {
      forall i | 0 <= i < |events| ensures !TakesBack(Run(s, events[..i]), events[i]) {
        OnlyImmutableStays(s, events[..i]);
        EveryRunKeepsInv(s, events[..i]);
        ImmutableKeepsFirstBytes(Run(s, events[..i]), events[i]);
        RunUpTo(s, events, i);
      }
    }
  }

  lemma {:induction false} FirstBytesStayUpTo(s: State, events: seq<Event>, i: nat)
    requires Inv(s) && OnlyImmutable(s) && forall k | 0 <= k < |events| :: ImmutableEvent(events[k])
    requires Visible(s).Some? && i <= |events|
    requires forall k | 0 <= k < |events| :: !TakesBack(Run(s, events[..k]), events[k])
    ensures Visible(Run(s, events[..i])) == Visible(s)
  {
    if i > 0 {
      FirstBytesStayUpTo(s, events, i - 1);
      OnlyImmutableStays(s, events[..i - 1]);
      EveryRunKeepsInv(s, events[..i - 1]);
      ImmutableKeepsFirstBytes(Run(s, events[..i - 1]), events[i - 1]);
      RunUpTo(s, events, i - 1);
    }
  }

  // Such a crash: a publisher dies between the replace and the sync of the directory, and the host
  // comes back without the artifact.
  function PublishedUnsynced(payload: Bytes, who: Publisher): seq<Event> {
    [Submit(who, Request(payload, Immutable)), TakeLock(who), Inspect(who), WriteSome(who, |payload|),
     SyncTemp(who), ReplaceTarget(who)]
  }

  // One publisher at some phase of its first publication.
  function OnlyPublisher(payload: Bytes, who: Publisher, phase: Phase): State {
    Initial(None).(lock := if InLock(phase) then Some(who) else None, submitted := {payload},
                   jobs := map[who := Job(Request(payload, Immutable), phase)])
  }

  lemma FirstSteps(payload: Bytes, who: Publisher, start: State)
    requires start == Initial(None)
    ensures Step(start, Submit(who, Request(payload, Immutable))) == OnlyPublisher(payload, who, Waiting)
    ensures Step(OnlyPublisher(payload, who, Waiting), TakeLock(who)) == OnlyPublisher(payload, who, Holding)
    ensures Step(OnlyPublisher(payload, who, Holding), Inspect(who)) == OnlyPublisher(payload, who, Writing([]))
  {
  }

  lemma WriteSteps(payload: Bytes, who: Publisher)
    ensures Step(OnlyPublisher(payload, who, Writing([])), WriteSome(who, |payload|))
         == OnlyPublisher(payload, who, Writing(payload))
    ensures Step(OnlyPublisher(payload, who, Writing(payload)), SyncTemp(who))
         == OnlyPublisher(payload, who, Synced(payload))
  {
    assert payload[..|payload|] == payload;
  }

  lemma ReplaceStep(payload: Bytes, who: Publisher)
    ensures Step(OnlyPublisher(payload, who, Synced(payload)), ReplaceTarget(who)) == Unsynced(payload, who)
  {
  }

  // The artifact is readable, its directory entry is not synced.
  function Unsynced(payload: Bytes, who: Publisher): State {
    OnlyPublisher(payload, who, Unflagged(1)).(
      history := [Version(None, Overwrite, None), Version(Some(payload), Immutable, Some(who))])
  }

  lemma HalfPublication(payload: Bytes, who: Publisher, start: State, events: seq<Event>)
    requires start == Initial(None) && events == PublishedUnsynced(payload, who)
    ensures Run(start, events[..3]) == OnlyPublisher(payload, who, Writing([]))
  {
    FirstSteps(payload, who, start);
    assert events[..0] == [];
    RunUpTo(start, events, 0);
    RunUpTo(start, events, 1);
    RunUpTo(start, events, 2);
  }

  lemma UnsyncedPublication(payload: Bytes, who: Publisher, start: State, events: seq<Event>)
    requires start == Initial(None) && events == PublishedUnsynced(payload, who)
    ensures Run(start, events) == Unsynced(payload, who)
  {
    HalfPublication(payload, who, start, events);
    WriteSteps(payload, who);
    ReplaceStep(payload, who);
    assert events[..6] == events;
    RunUpTo(start, events, 3);
    RunUpTo(start, events, 4);
    RunUpTo(start, events, 5);
  }

  lemma UnsyncedArtifactIsTakenBack(payload: Bytes, who: Publisher)
    ensures var s := Run(Initial(None), PublishedUnsynced(payload, who));
            Visible(s) == Some(payload) && Visible(Step(Step(s, Die(who)), HostCrash(0))) == None
  {
    UnsyncedPublication(payload, who, Initial(None), PublishedUnsynced(payload, who));
  }

  // The failing runs: an exception before the flag is set, and one on the way out of the lock after a
  // confirmed publication.  Both are told as plain exceptions; the artifact is there.
  lemma HiddenReplacements(payload: Bytes, who: Publisher, keepsLock: bool, s: State)
    requires s == Run(Initial(None), PublishedUnsynced(payload, who))
    ensures var early := Step(Step(s, Raise(who, false)), Unlock(who));
            Told(early, who, Failed) && Visible(early) == Some(payload) && !ToldTheTruth(early, who, Failed)
    ensures var late := Step(Step(Step(s, SetFlag(who)), SyncDirectory(who)), Raise(who, keepsLock));
            && Told(late, who, Failed) && Visible(late) == Some(payload) && !ToldTheTruth(late, who, Failed)
            && late.lock == if keepsLock then Some(who) else None
  {
    UnsyncedPublication(payload, who, Initial(None), PublishedUnsynced(payload, who));
    HiddenEarly(payload, who, s);
    HiddenLate(payload, who, keepsLock, s);
  }

  lemma HiddenEarly(payload: Bytes, who: Publisher, s: State)
    requires s == Unsynced(payload, who)
    ensures var early := Step(Step(s, Raise(who, false)), Unlock(who));
            Told(early, who, Failed) && Visible(early) == Some(payload) && !ToldTheTruth(early, who, Failed)
  {
    assert s.history[1].author == Some(who);
  }

  lemma HiddenLate(payload: Bytes, who: Publisher, keepsLock: bool, s: State)
    requires s == Unsynced(payload, who)
    ensures var late := Step(Step(Step(s, SetFlag(who)), SyncDirectory(who)), Raise(who, keepsLock));
            && Told(late, who, Failed) && Visible(late) == Some(payload) && !ToldTheTruth(late, who, Failed)
            && late.lock == if keepsLock then Some(who) else None
  {
    assert s.history[1].author == Some(who);
  }

  lemma SyncedStaysSynced(s: State, e: Event)
    requires Inv(s) && OnlyImmutable(s) && Visible(s).Some? && s.durable == |s.history| - 1
    ensures Step(s, e).durable == |Step(s, e).history| - 1
  {
    if !e.HostCrash? && e.who in s.jobs { assert JobOk(s, e.who); }
  }

  // A synced immutable artifact keeps its bytes through every run.
  lemma {:induction false} SyncedImmutableIsForever(s: State, events: seq<Event>)
    requires Inv(s) && OnlyImmutable(s) && forall i | 0 <= i < |events| :: ImmutableEvent(events[i])
    requires Visible(s).Some? && s.durable == |s.history| - 1
    ensures Visible(Run(s, events)) == Visible(s)
    ensures Run(s, events).durable == |Run(s, events).history| - 1
  {
    if events != [] {
      var init, e := events[..|events| - 1], events[|events| - 1];
      SyncedImmutableIsForever(s, init);
      OnlyImmutableStays(s, init);
      EveryRunKeepsInv(s, init);
      var mid := Run(s, init);
      ImmutableKeepsFirstBytes(mid, e);
      SyncedStaysSynced(mid, e);
    }
  }

  // ---- one publisher, as the program runs it ----

  // Where an injected failure strikes, if anywhere.
  datatype Fault =
    | NoFault | AtTemp | AtWrite(written: nat) | BeforeReplacing | BeforeFlag | AtDirectorySync
    | InHandler                     // the directory sync fails and the handler is interrupted

  // What leaving the lock does.
  datatype Exit = CleanExit | ExitRaises(keepsLock: bool)

  // Did the replacement take place?
  predicate Replaces(fault: Fault) {
    fault.NoFault? || fault.BeforeFlag? || fault.AtDirectorySync? || fault.InHandler?
  }

  class Directory {
    var target: Option<Bytes>
    var temporaries: map<nat, Bytes>
    var locked: bool

    constructor (content: Option<Bytes>)
      ensures target == content && temporaries == map[] && !locked
    {
      target, temporaries, locked := content, map[], false;
    }

    // The body of publish_bytes, with the `replaced` flag and the cleanup of the temporary file.
    method WriteAndReplace(encoded: Bytes, name: nat, fault: Fault) returns (outcome: Outcome)
      requires name !in temporaries
      modifies this`target, this`temporaries
      ensures temporaries == old(temporaries)
      ensures target == if Replaces(fault) then Some(encoded) else old(target)
      ensures outcome.Confirmed? <==> fault == NoFault
      ensures outcome.PublicationUncertain? <==> fault == AtDirectorySync
      ensures outcome.Confirmed? || outcome.PublicationUncertain? || outcome.Failed?
    {
      if fault == AtTemp {
        return Failed;
      }
      var replaced := false;
      var written := if fault.AtWrite? && fault.written <= |encoded| then encoded[..fault.written] else encoded;
      temporaries := temporaries[name := written];
      var failed := fault.AtWrite? || fault == BeforeReplacing;
      if !failed {
        target, temporaries := Some(temporaries[name]), temporaries - {name};
        failed := fault == BeforeFlag;
      }
      if !failed {
        replaced := true;
        failed := fault == AtDirectorySync || fault == InHandler;
      }
      if !failed {
        return Confirmed(0);
      }
      temporaries := temporaries - {name};
      return if replaced && fault != InHandler then PublicationUncertain else Failed;
    }

    // publish_bytes under its lock.
    method PublishBytes(encoded: Bytes, mode: Mode, name: nat, fault: Fault, exit: Exit) returns (outcome: Outcome)
      requires name !in temporaries && !locked
      modifies this
      ensures temporaries == old(temporaries)
      ensures target == if !FindsItself(Request(encoded, mode), old(target))
                           && !FindsOther(Request(encoded, mode), old(target)) && Replaces(fault)
                        then Some(encoded) else old(target)
      ensures exit.ExitRaises? ==> outcome == Failed && locked == exit.keepsLock
      ensures exit.CleanExit? ==> !locked
      ensures exit.CleanExit? ==> (outcome.AlreadyThere? <==> FindsItself(Request(encoded, mode), old(target)))
      ensures exit.CleanExit? ==> (outcome.Conflict? <==> FindsOther(Request(encoded, mode), old(target)))
      ensures exit.CleanExit? && !outcome.AlreadyThere? && !outcome.Conflict? ==>
                && (outcome.Confirmed? <==> fault == NoFault)
                && (outcome.PublicationUncertain? <==> fault == AtDirectorySync)
                && (outcome.Failed? <==> fault != NoFault && fault != AtDirectorySync)
    {
      locked := true;
      var verdict := Verdict(mode, encoded, target);
      if verdict.Some? {
        outcome := verdict.value;
      } else {
        outcome := WriteAndReplace(encoded, name, fault);
      }
      if exit.ExitRaises? {
        locked := exit.keepsLock;
        return Failed;
      }
      locked := false;
    }
  }
}
