/**
 The serialized initializer of one database path: a reentrant thread lock per
 process plus an exclusive file lock between processes.  Acquires and releases
 are split into the steps at which another thread or process can run.
 */
module InitializerLock {
  import opened Options
  import opened Moments

  type Thread = nat
  type Process = nat

  datatype Phase =
    | Out             // not inside acquire
    | GotThreadLock   // thread lock taken by this acquire, owner not yet compared
    | Polling         // lock file open, polling for the file lock
    | FileLocked      // file lock taken, fields not yet set

  // `outstanding` counts this thread's acquires that returned and were not released.
  datatype ThreadState = ThreadState(process: Process, phase: Phase, outstanding: nat)

  // The registry keeps one initializer per path and process: its RLock and its fields.
  // `leaked` counts acquires of the RLock that an escaping exception left behind; `stray` says
  // that one of them left a locked descriptor behind that no field refers to.
  datatype Initializer = Initializer(
    rlockOwner: Option<Thread>, rlockCount: nat,
    depth: nat, ownerTid: Option<Thread>, fd: bool,
    leaked: nat, stray: bool)

  const FRESH := Initializer(None, 0, 0, None, false, 0, false)

  datatype State = State(threads: map<Thread, ThreadState>, processes: map<Process, Initializer>,
                         flock: Option<Process>)

  datatype Event =
    | StartProcess(process: Process)
    | StartThread(thread: Thread, process: Process)  // a dead thread's ident may be used again
    | ThreadEnds(thread: Thread)          // having released what it acquired
    | LockThread(thread: Thread)          // _thread_lock.acquire succeeds
    | CompareOwner(thread: Thread)        // reentrant return, or open the lock file
    | OpenFails(thread: Thread)
    | TryFileLock(thread: Thread)
    | SetFields(thread: Thread)           // _fd, _owner_tid and _depth, and the return
    | FileLockTimeout(thread: Thread)
    | Interrupt(thread: Thread)           // a BaseException inside acquire: the except clause does not see it
    | Release(thread: Thread, raises: bool)  // does it raise before it gives the thread lock back?
    | ProcessDies(process: Process)

  predicate At(s: State, t: Thread, phase: Phase) {
    t in s.threads && s.threads[t].phase == phase && s.threads[t].process in s.processes
  }

  // Inside acquire with the thread lock held.
  predicate Acquiring(s: State, t: Thread) {
    t in s.threads && s.threads[t].phase != Out && s.threads[t].process in s.processes
  }

  function Update(s: State, t: Thread, thread: ThreadState, init: Initializer): State
    requires t in s.threads
  {
    s.(threads := s.threads[t := thread], processes := s.processes[thread.process := init])
  }

  function Unlock(init: Initializer): Initializer
    requires init.rlockCount > 0
  {
    if init.rlockCount == 1 then init.(rlockOwner := None, rlockCount := 0)
    else init.(rlockCount := init.rlockCount - 1)
  }

  // _thread_lock.release(): an error, here no change, when nothing is held.
  function UnlockIfHeld(init: Initializer): Initializer {
    if init.rlockCount > 0 then Unlock(init) else init
  }

  function Step(s: State, e: Event): State {
    match e
    case StartProcess(p) => if p in s.processes then s else s.(processes := s.processes[p := FRESH])
    case StartThread(t, p) =>
      if t in s.threads || p !in s.processes then s else s.(threads := s.threads[t := ThreadState(p, Out, 0)])
    case ThreadEnds(t) =>
      if At(s, t, Out) && s.threads[t].outstanding == 0 then s.(threads := s.threads - {t}) else s
    case LockThread(t) =>
      if !At(s, t, Out) then s
      else
        var thread := s.threads[t];
        var init := s.processes[thread.process];
        if init.rlockOwner.None? || init.rlockOwner == Some(t)
        then Update(s, t, thread.(phase := GotThreadLock),
                    init.(rlockOwner := Some(t), rlockCount := init.rlockCount + 1))
        else s
    case CompareOwner(t) =>
      if !At(s, t, GotThreadLock) then s
      else
        var thread := s.threads[t];
        var init := s.processes[thread.process];
        if init.ownerTid == Some(t)
        then Update(s, t, thread.(phase := Out, outstanding := thread.outstanding + 1), init.(depth := init.depth + 1))
        else Update(s, t, thread.(phase := Polling), init)
    case OpenFails(t) =>
      if !At(s, t, GotThreadLock) || s.processes[s.threads[t].process].ownerTid == Some(t) then s
      else Update(s, t, s.threads[t].(phase := Out), UnlockIfHeld(s.processes[s.threads[t].process]))
    case TryFileLock(t) =>
      if !At(s, t, Polling) || s.flock.Some? then s
      else
        var thread := s.threads[t];
        Update(s, t, thread.(phase := FileLocked), s.processes[thread.process]).(flock := Some(thread.process))
    case SetFields(t) =>
      if !At(s, t, FileLocked) then s
      else
        var thread := s.threads[t];
        var init := s.processes[thread.process];
        Update(s, t, thread.(phase := Out, outstanding := thread.outstanding + 1),
               init.(depth := 1, ownerTid := Some(t), fd := true))
    case FileLockTimeout(t) =>
      if !At(s, t, Polling) then s
      else Update(s, t, s.threads[t].(phase := Out), UnlockIfHeld(s.processes[s.threads[t].process]))
    case Interrupt(t) =>
      if !Acquiring(s, t) then s
      else
        var init := s.processes[s.threads[t].process];
        Update(s, t, s.threads[t].(phase := Out),
               init.(leaked := init.leaked + 1, stray := init.stray || s.threads[t].phase == FileLocked))
    case Release(t, raises) =>
      if !At(s, t, Out) || s.processes[s.threads[t].process].ownerTid != Some(t)
         || s.threads[t].outstanding == 0 || s.processes[s.threads[t].process].depth == 0 then s
      else
        var thread := s.threads[t].(outstanding := s.threads[t].outstanding - 1);
        var init := s.processes[thread.process];
        var cleared :=
          if init.depth > 1 then init.(depth := init.depth - 1) else init.(depth := 0, ownerTid := None, fd := false);
        Update(s, t, thread, if raises then cleared.(leaked := cleared.leaked + 1) else UnlockIfHeld(cleared))
          .(flock := if init.depth > 1 then s.flock else None)
    case ProcessDies(p) =>
      s.(threads := map t | t in s.threads && s.threads[t].process != p :: s.threads[t],
         processes := s.processes - {p},
         flock := if s.flock == Some(p) then None else s.flock)
  }

  // ---- the invariant ----

  // The owner of the thread lock is a living thread of p inside acquire.
  predicate OwnerAcquires(s: State, p: Process)
    requires p in s.processes
  {
    && s.processes[p].rlockOwner.Some? && s.processes[p].rlockOwner.value in s.threads
    && s.threads[s.processes[p].rlockOwner.value].process == p
    && s.threads[s.processes[p].rlockOwner.value].phase != Out
  }

  // It has the file lock but has not recorded it.
  predicate TakingFile(s: State, p: Process)
    requires p in s.processes
  {
    OwnerAcquires(s, p) && s.threads[s.processes[p].rlockOwner.value].phase == FileLocked
  }

  ghost predicate InitializerOk(s: State, p: Process)
    requires p in s.processes
  {
    var init := s.processes[p];
    && (init.fd <==> init.depth > 0)
    && (init.fd <==> init.ownerTid.Some?)
    && (s.flock == Some(p) <==> init.fd || init.stray || TakingFile(s, p))
    && !(init.fd && init.stray) && (TakingFile(s, p) ==> !init.fd && !init.stray)
    && (init.stray ==> init.leaked > 0)
    && (init.ownerTid.Some? ==> init.rlockOwner == init.ownerTid)
    && (init.rlockOwner.None? <==> init.rlockCount == 0)
    && init.rlockCount == init.depth + (if OwnerAcquires(s, p) then 1 else 0) + init.leaked
    && (init.ownerTid.Some? ==> init.ownerTid.value in s.threads && s.threads[init.ownerTid.value].process == p)
  }

  ghost predicate ThreadOk(s: State, t: Thread)
    requires t in s.threads
  {
    var thread := s.threads[t];
    && thread.process in s.processes
    && (thread.phase != Out ==> s.processes[thread.process].rlockOwner == Some(t))
    && (thread.phase == Polling || thread.phase == FileLocked ==> s.processes[thread.process].ownerTid.None?)
    && thread.outstanding
         == if s.processes[thread.process].ownerTid == Some(t) then s.processes[thread.process].depth else 0
  }

  ghost predicate Inv(s: State) {
    && (forall p | p in s.processes :: InitializerOk(s, p))
    && (forall t | t in s.threads :: ThreadOk(s, t))
    && (s.flock.Some? ==> s.flock.value in s.processes)
  }

  predicate ByThread(e: Event) {
    !e.StartProcess? && !e.ProcessDies? && !e.StartThread? && !e.ThreadEnds?
  }

  lemma ActingThread(s: State, e: Event)
    requires Inv(s) && ByThread(e) && e.thread in s.threads
    ensures e.thread in Step(s, e).threads && ThreadOk(Step(s, e), e.thread)
  {
    assert ThreadOk(s, e.thread);
    assert InitializerOk(s, s.threads[e.thread].process);
  }

  lemma OtherThread(s: State, e: Event, t: Thread)
    requires Inv(s) && ByThread(e) && !e.Release? && e.thread in s.threads && t in s.threads && t != e.thread
    ensures t in Step(s, e).threads && ThreadOk(Step(s, e), t)
  {
    assert ThreadOk(s, t) && ThreadOk(s, e.thread);
    assert InitializerOk(s, s.threads[e.thread].process);
  }

  lemma OtherThreadOfRelease(s: State, e: Event, t: Thread)
    requires Inv(s) && e.Release? && e.thread in s.threads && t in s.threads && t != e.thread
    ensures t in Step(s, e).threads && ThreadOk(Step(s, e), t)
  {
    assert ThreadOk(s, t) && ThreadOk(s, e.thread);
    assert InitializerOk(s, s.threads[e.thread].process);
  }

  lemma StepKeepsThread(s: State, e: Event, t: Thread)
    requires Inv(s) && t in Step(s, e).threads
    ensures ThreadOk(Step(s, e), t)
  {
    if t in s.threads { assert ThreadOk(s, t); }
    if ByThread(e) && e.thread in s.threads {
      if t == e.thread {
        ActingThread(s, e);
      } else if e.Release? {
        OtherThreadOfRelease(s, e, t);
      } else {
        OtherThread(s, e, t);
      }
    } else if ByThread(e) {
      assert Step(s, e) == s;
    }
  }

  // The acting thread's own process.
  lemma ActingInitializer(s: State, e: Event)
    requires Inv(s) && ByThread(e) && !e.Release? && e.thread in s.threads
    ensures s.threads[e.thread].process in Step(s, e).processes
    ensures InitializerOk(Step(s, e), s.threads[e.thread].process)
  {
    assert ThreadOk(s, e.thread);
    assert InitializerOk(s, s.threads[e.thread].process);
  }

  lemma ReleasingInitializer(s: State, e: Event)
    requires Inv(s) && e.Release? && e.thread in s.threads
    ensures s.threads[e.thread].process in Step(s, e).processes
    ensures InitializerOk(Step(s, e), s.threads[e.thread].process)
  {
    assert ThreadOk(s, e.thread);
    assert InitializerOk(s, s.threads[e.thread].process);
  }

  // Every other process.
  lemma OtherInitializer(s: State, e: Event, p: Process)
    requires Inv(s) && ByThread(e) && e.thread in s.threads && p in s.processes && s.threads[e.thread].process != p
    ensures p in Step(s, e).processes && InitializerOk(Step(s, e), p)
  {
    assert InitializerOk(s, p);
    assert ThreadOk(s, e.thread);
    assert InitializerOk(s, s.threads[e.thread].process);
  }

  lemma LifecycleInitializer(s: State, e: Event, p: Process)
    requires Inv(s) && !ByThread(e) && p in Step(s, e).processes
    ensures InitializerOk(Step(s, e), p)
  {
    if p in s.processes { assert InitializerOk(s, p); }
    if e.ThreadEnds? && e.thread in s.threads { assert ThreadOk(s, e.thread); }
  }

  lemma StepKeepsInitializer(s: State, e: Event, p: Process)
    requires Inv(s) && p in Step(s, e).processes
    ensures InitializerOk(Step(s, e), p)
  {
    if !ByThread(e) {
      LifecycleInitializer(s, e, p);
    } else if e.thread !in s.threads {
      assert Step(s, e) == s && InitializerOk(s, p);
    } else if s.threads[e.thread].process != p {
      OtherInitializer(s, e, p);
    } else if e.Release? {
      ReleasingInitializer(s, e);
    } else {
      ActingInitializer(s, e);
    }
  }

  lemma StepKeepsInv(s: State, e: Event)
    requires Inv(s)
    ensures Inv(Step(s, e))
  {
    var after := Step(s, e);
    forall p | p in after.processes ensures InitializerOk(after, p) { StepKeepsInitializer(s, e, p); }
    forall t | t in after.threads ensures ThreadOk(after, t) { StepKeepsThread(s, e, t); }
    if !e.StartProcess? && !e.ProcessDies? && e.thread in s.threads { assert ThreadOk(s, e.thread); }
  }

  function Run(s: State, events: seq<Event>): State {
    if events == [] then s else Step(Run(s, events[..|events| - 1]), events[|events| - 1])
  }

  const INITIAL := State(map[], map[], None)

  lemma {:induction false} EveryRunKeepsInv(events: seq<Event>)
    ensures Inv(Run(INITIAL, events))
  {
    if events != [] {
      EveryRunKeepsInv(events[..|events| - 1]);
      StepKeepsInv(Run(INITIAL, events[..|events| - 1]), events[|events| - 1]);
    }
  }

  // ---- what it means ----

  // The thread has acquired the initializer and not released it.
  predicate Inside(s: State, t: Thread) {
    t in s.threads && s.threads[t].outstanding > 0
  }

  // In every reachable state at most one thread of one process is inside.
  lemma AtMostOneInside(events: seq<Event>, a: Thread, b: Thread)
    requires Inside(Run(INITIAL, events), a) && Inside(Run(INITIAL, events), b)
    ensures a == b
  {
    var s := Run(INITIAL, events);
    EveryRunKeepsInv(events);
    assert ThreadOk(s, a) && ThreadOk(s, b);
    assert InitializerOk(s, s.threads[a].process) && InitializerOk(s, s.threads[b].process);
  }

  // The thread inside is the recorded owner, depth counts its outstanding acquires, and the descriptor
  // is held exactly while depth is positive.  The process has the file lock exactly then, while an
  // acquire is about to record it, or after an interrupted acquire left it behind.
  ghost predicate DepthCounts(s: State, p: Process)
    requires p in s.processes
  {
    var init := s.processes[p];
    && (init.fd <==> init.depth > 0)
    && (s.flock == Some(p) <==> init.depth > 0 || init.stray || TakingFile(s, p))
    && (init.depth > 0 ==>
          && init.ownerTid.Some? && init.ownerTid.value in s.threads
          && s.threads[init.ownerTid.value].outstanding == init.depth)
    && (forall t | t in s.threads && s.threads[t].process == p && s.threads[t].outstanding > 0 ::
          init.ownerTid == Some(t))
  }

  lemma InvCountsDepth(s: State, p: Process)
    requires Inv(s) && p in s.processes
    ensures DepthCounts(s, p)
  {
    assert InitializerOk(s, p);
    if s.processes[p].ownerTid.Some? { assert ThreadOk(s, s.processes[p].ownerTid.value); }
    forall t | t in s.threads && s.threads[t].process == p && s.threads[t].outstanding > 0
      ensures s.processes[p].ownerTid == Some(t)
    {
      assert ThreadOk(s, t);
    }
  }

  lemma DepthIsOutstanding(events: seq<Event>, p: Process)
    requires p in Run(INITIAL, events).processes
    ensures DepthCounts(Run(INITIAL, events), p)
  {
    EveryRunKeepsInv(events);
    InvCountsDepth(Run(INITIAL, events), p);
  }

  // The final release always drops the file lock; it drops the thread lock exactly when
  // the unlock call succeeds and no earlier acquire was abandoned by an escaping exception.
  lemma FinalReleaseLeavesNothing(s: State, t: Thread, raises: bool)
    requires Inv(s) && Inside(s, t) && s.threads[t].phase == Out && s.threads[t].outstanding == 1
    ensures var after := Step(s, Release(t, raises)); var p := s.threads[t].process;
            && p in s.processes && p in after.processes
            && after.flock == None && !after.processes[p].fd && after.processes[p].depth == 0
            && (after.processes[p].rlockOwner.None? <==> !raises && s.processes[p].leaked == 0)
  {
    assert ThreadOk(s, t);
    assert InitializerOk(s, s.threads[t].process);
  }

  // A failed acquire gives the thread lock back and never held the file lock.
  lemma FailedAcquireLeavesNothing(s: State, e: Event)
    requires Inv(s) && (e.FileLockTimeout? || e.OpenFails?) && e.thread in s.threads
    requires s.threads[e.thread].phase == if e.FileLockTimeout? then Polling else GotThreadLock
    requires s.threads[e.thread].process in s.processes
    requires s.processes[s.threads[e.thread].process].ownerTid != Some(e.thread)
    ensures var after := Step(s, e); var p := s.threads[e.thread].process;
            && after.flock == s.flock && p in after.processes
            && after.processes[p].fd == s.processes[p].fd
            && (after.processes[p].rlockOwner.None? <==> s.processes[p].leaked == 0)
  {
    assert ThreadOk(s, e.thread);
    assert InitializerOk(s, s.threads[e.thread].process);
  }

  // A BaseException inside acquire leaves the thread lock held, and the file lock if it was already taken.
  lemma InterruptedAcquireLeaks(s: State, t: Thread)
    requires Inv(s) && Acquiring(s, t)
    ensures var after := Step(s, Interrupt(t)); var p := s.threads[t].process;
            && p in after.processes && after.flock == s.flock
            && after.processes[p].rlockOwner == Some(t) && after.processes[p].leaked > 0
            && (s.threads[t].phase == FileLocked ==> after.processes[p].stray && after.flock == Some(p))
  {
    assert ThreadOk(s, t);
    assert InitializerOk(s, s.threads[t].process);
  }

  // ---- what an undisturbed thread achieves ----

  predicate MayEnter(s: State, t: Thread) {
    && At(s, t, Out)
    && (s.processes[s.threads[t].process].rlockOwner.None? || s.processes[s.threads[t].process].rlockOwner == Some(t))
  }

  // A thread that finds the thread lock free (or its own) and the file lock free gets in, as the owner of
  // depth one, with the descriptor and both locks.
  lemma FreeInitializerIsAcquired(s: State, t: Thread)
    requires Inv(s) && MayEnter(s, t) && s.threads[t].outstanding == 0 && s.flock == None
    ensures var locked := Step(s, LockThread(t));
            var polling := Step(locked, CompareOwner(t));
            var taken := Step(polling, TryFileLock(t));
            var end := Step(taken, SetFields(t)); var p := s.threads[t].process;
            && At(locked, t, GotThreadLock) && At(polling, t, Polling) && At(taken, t, FileLocked) && At(end, t, Out)
            && end.threads[t].outstanding == 1 && end.flock == Some(p)
            && end.processes[p].depth == 1 && end.processes[p].fd && end.processes[p].ownerTid == Some(t)
            && end.processes[p].rlockOwner == Some(t)
  {
    assert ThreadOk(s, t);
    assert InitializerOk(s, s.threads[t].process);
  }

  // The owner gets in again without touching the file lock.
  lemma OwnerReenters(s: State, t: Thread)
    requires Inv(s) && At(s, t, Out) && s.threads[t].outstanding > 0
    ensures var end := Step(Step(s, LockThread(t)), CompareOwner(t)); var p := s.threads[t].process;
            && At(end, t, Out) && end.threads[t].outstanding == s.threads[t].outstanding + 1
            && end.processes[p].depth == s.processes[p].depth + 1 && end.flock == s.flock
  {
    assert ThreadOk(s, t);
    assert InitializerOk(s, s.threads[t].process);
  }

  // Everybody else waits: at the thread lock, or polling at the file lock.
  lemma OthersWait(s: State, t: Thread)
    requires Inv(s)
    ensures At(s, t, Out) && !MayEnter(s, t) ==> Step(s, LockThread(t)) == s
    ensures At(s, t, Polling) && s.flock.Some? ==> Step(s, TryFileLock(t)) == s
  {
  }

  // An ordinary release gives back one acquire, and the file lock with the last one only.
  lemma ReleaseGivesBackOne(s: State, t: Thread)
    requires Inv(s) && At(s, t, Out) && s.threads[t].outstanding > 0
    ensures var end := Step(s, Release(t, false)); var p := s.threads[t].process;
            && At(end, t, Out) && end.threads[t].outstanding == s.threads[t].outstanding - 1
            && end.processes[p].rlockCount == s.processes[p].rlockCount - 1
            && end.processes[p].leaked == s.processes[p].leaked
            && end.flock == if s.threads[t].outstanding == 1 then None else s.flock
  {
    assert ThreadOk(s, t);
    assert InitializerOk(s, s.threads[t].process);
  }

  // ---- leaks last until the process dies ----

  // The thread that the leaked thread lock belongs to.
  predicate LeakedTo(s: State, p: Process, t: Thread) {
    p in s.processes && s.processes[p].leaked > 0 && s.processes[p].rlockOwner == Some(t)
  }

  // A thread's step leaves the other processes' initializers alone.
  lemma OtherProcessUntouched(s: State, e: Event, p: Process)
    requires ByThread(e) && (e.thread in s.threads ==> s.threads[e.thread].process != p)
    ensures p in Step(s, e).processes <==> p in s.processes
    ensures p in s.processes ==> Step(s, e).processes[p] == s.processes[p]
  {
  }

  lemma LeakStaysInAcquire(s: State, e: Event, p: Process, t: Thread)
    requires Inv(s) && LeakedTo(s, p, t) && ByThread(e) && !e.Release? && e.thread in s.threads
    requires s.threads[e.thread].process == p
    ensures LeakedTo(Step(s, e), p, t)
    ensures s.processes[p].stray ==> Step(s, e).processes[p].stray
  {
    assert InitializerOk(s, p);
    assert ThreadOk(s, e.thread);
  }

  lemma LeakStaysInRelease(s: State, e: Event, p: Process, t: Thread)
    requires Inv(s) && LeakedTo(s, p, t) && e.Release? && e.thread in s.threads && s.threads[e.thread].process == p
    ensures LeakedTo(Step(s, e), p, t)
    ensures s.processes[p].stray ==> Step(s, e).processes[p].stray
  {
    assert InitializerOk(s, p);
    assert ThreadOk(s, e.thread);
  }

  lemma LeakStaysOneStep(s: State, e: Event, p: Process, t: Thread)
    requires Inv(s) && LeakedTo(s, p, t) && e != ProcessDies(p)
    ensures LeakedTo(Step(s, e), p, t)
    ensures s.processes[p].stray ==> Step(s, e).processes[p].stray
  {
    if ByThread(e) {
      if e.thread !in s.threads || s.threads[e.thread].process != p {
        OtherProcessUntouched(s, e, p);
      } else if e.Release? {
        LeakStaysInRelease(s, e, p, t);
      } else {
        LeakStaysInAcquire(s, e, p, t);
      }
    }
  }

  // Over every run in which the process does not die: the thread lock stays with that thread's ident and
  // every thread of the process with another ident stays out; with the file lock left behind, nobody of
  // any process gets in.
  lemma {:induction false} LeakIsPermanent(s: State, events: seq<Event>, p: Process, t: Thread)
    requires Inv(s) && LeakedTo(s, p, t) && forall i | 0 <= i < |events| :: events[i] != ProcessDies(p)
    ensures Inv(Run(s, events)) && LeakedTo(Run(s, events), p, t)
    ensures forall u | u in Run(s, events).threads && Run(s, events).threads[u].process == p && u != t ::
              Run(s, events).threads[u].phase == Out && !Inside(Run(s, events), u)
    ensures s.processes[p].stray ==> Run(s, events).processes[p].stray && forall u :: !Inside(Run(s, events), u)
  {
    if events != [] {
      var init, e := events[..|events| - 1], events[|events| - 1];
      LeakIsPermanent(s, init, p, t);
      StepKeepsInv(Run(s, init), e);
      LeakStaysOneStep(Run(s, init), e, p, t);
    }
    OthersStayOut(Run(s, events), p, t);
  }

  // A new thread that is given the ident of the dead owner does get past the thread lock.
  lemma ReusedIdentGetsPast(s: State, p: Process, t: Thread)
    requires Inv(s) && LeakedTo(s, p, t) && t !in s.threads
    ensures At(Step(Step(s, StartThread(t, p)), LockThread(t)), t, GotThreadLock)
  {
  }

  lemma OthersStayOut(s: State, p: Process, t: Thread)
    requires Inv(s) && LeakedTo(s, p, t)
    ensures forall u | u in s.threads && s.threads[u].process == p && u != t ::
              s.threads[u].phase == Out && !Inside(s, u)
    ensures s.processes[p].stray ==> forall u :: !Inside(s, u)
  {
    assert InitializerOk(s, p);
    forall u | u in s.threads
      ensures s.threads[u].process == p && u != t ==> s.threads[u].phase == Out && !Inside(s, u)
      ensures s.processes[p].stray ==> !Inside(s, u)
    {
      assert ThreadOk(s, u);
      assert InitializerOk(s, s.threads[u].process);
    }
  }

  // ---- exactly which events leak ----

  // The event abandons an acquire of the thread lock in process p: an interrupt inside acquire, or a
  // release that raises before it gives the thread lock back.
  predicate Abandons(s: State, e: Event, p: Process) {
    match e
    case Interrupt(t) => t in s.threads && s.threads[t].process == p && s.threads[t].phase != Out
    case Release(t, raises) =>
      && raises && t in s.threads && s.threads[t].process == p
      && s.threads[t].phase == Out && s.threads[t].outstanding > 0
    case _ => false
  }

  // Of these, the ones that also strand the file lock.
  predicate Strands(s: State, e: Event, p: Process) {
    e.Interrupt? && e.thread in s.threads && s.threads[e.thread].process == p && s.threads[e.thread].phase == FileLocked
  }

  ghost function Abandonment(events: seq<Event>, p: Process): int -> bool {
    i => 0 <= i < |events| && Abandons(Run(INITIAL, events[..i]), events[i], p)
  }

  ghost function Stranding(events: seq<Event>, p: Process): int -> bool {
    i => 0 <= i < |events| && Strands(Run(INITIAL, events[..i]), events[i], p)
  }

  ghost function Death(events: seq<Event>, p: Process): int -> bool {
    i => 0 <= i < |events| && events[i] == ProcessDies(p)
  }

  // An acquire of process p was abandoned, and p has not died since.
  ghost predicate AbandonedSince(events: seq<Event>, p: Process) {
    Since(Abandonment(events, p), Death(events, p), |events|)
  }

  ghost predicate StrandedSince(events: seq<Event>, p: Process) {
    Since(Stranding(events, p), Death(events, p), |events|)
  }

  lemma SinceSnoc(init: seq<Event>, e: Event, p: Process)
    ensures AbandonedSince(init + [e], p)
       <==> Abandons(Run(INITIAL, init), e, p) || (AbandonedSince(init, p) && e != ProcessDies(p))
    ensures StrandedSince(init + [e], p)
       <==> Strands(Run(INITIAL, init), e, p) || (StrandedSince(init, p) && e != ProcessDies(p))
  {
    var events, n := init + [e], |init|;
    forall i | 0 <= i < n ensures events[..i] == init[..i] && events[i] == init[i] {}
    assert events[..n] == init;
    SinceStep(Abandonment(events, p), Death(events, p), n);
    SinceStep(Stranding(events, p), Death(events, p), n);
    SinceCongruent(Abandonment(events, p), Abandonment(init, p), Death(events, p), Death(init, p), n);
    SinceCongruent(Stranding(events, p), Stranding(init, p), Death(events, p), Death(init, p), n);
  }

  ghost predicate HasLeak(s: State, p: Process) {
    p in s.processes && s.processes[p].leaked > 0
  }

  ghost predicate HasStray(s: State, p: Process) {
    p in s.processes && s.processes[p].stray
  }

  lemma LeakStepInAcquire(s: State, e: Event, p: Process)
    requires Inv(s) && ByThread(e) && !e.Release? && e.thread in s.threads && s.threads[e.thread].process == p
    ensures HasLeak(Step(s, e), p) <==> Abandons(s, e, p) || HasLeak(s, p)
    ensures HasStray(Step(s, e), p) <==> Strands(s, e, p) || HasStray(s, p)
  {
    assert ThreadOk(s, e.thread);
  }

  lemma LeakStepInRelease(s: State, e: Event, p: Process)
    requires Inv(s) && e.Release? && e.thread in s.threads && s.threads[e.thread].process == p
    ensures HasLeak(Step(s, e), p) <==> Abandons(s, e, p) || HasLeak(s, p)
    ensures HasStray(Step(s, e), p) <==> HasStray(s, p)
  {
    assert ThreadOk(s, e.thread);
    assert InitializerOk(s, p);
  }

  lemma LeakStep(s: State, e: Event, p: Process)
    requires Inv(s)
    ensures HasLeak(Step(s, e), p) <==> Abandons(s, e, p) || (HasLeak(s, p) && e != ProcessDies(p))
    ensures HasStray(Step(s, e), p) <==> Strands(s, e, p) || (HasStray(s, p) && e != ProcessDies(p))
  {
    if ByThread(e) {
      if e.thread !in s.threads || s.threads[e.thread].process != p {
        OtherProcessUntouched(s, e, p);
      } else if e.Release? {
        LeakStepInRelease(s, e, p);
      } else {
        LeakStepInAcquire(s, e, p);
      }
    }
  }

  // In every run: a living process has a leaked thread lock exactly when an acquire was abandoned
  // since it started, and a stray file lock exactly when one was abandoned after taking it.
  lemma {:induction false} LeakedExactlyWhenAbandoned(events: seq<Event>, p: Process)
    ensures HasLeak(Run(INITIAL, events), p) <==> AbandonedSince(events, p)
    ensures HasStray(Run(INITIAL, events), p) <==> StrandedSince(events, p)
  {
    if events != [] {
      var init, e := events[..|events| - 1], events[|events| - 1];
      LeakedExactlyWhenAbandoned(init, p);
      EveryRunKeepsInv(init);
      LeakStep(Run(INITIAL, init), e, p);
      SinceSnoc(init, e, p);
      assert init + [e] == events;
    }
  }

  // The same, read off the two locks: once no thread of the process is inside acquire or holds the
  // initializer, the thread lock is free unless an acquire was abandoned, and so is the file lock unless
  // one was abandoned with it.
  lemma LocksHeldExactlyWhenAbandoned(events: seq<Event>, p: Process)
    requires p in Run(INITIAL, events).processes && Run(INITIAL, events).processes[p].depth == 0
    requires var s := Run(INITIAL, events);
             forall t | t in s.threads && s.threads[t].process == p :: s.threads[t].phase == Out
    ensures Run(INITIAL, events).processes[p].rlockOwner.Some? <==> AbandonedSince(events, p)
    ensures Run(INITIAL, events).flock == Some(p) <==> StrandedSince(events, p)
  {
    EveryRunKeepsInv(events);
    LeakedExactlyWhenAbandoned(events, p);
    RestingLocks(Run(INITIAL, events), p);
  }

  lemma RestingLocks(s: State, p: Process)
    requires Inv(s) && p in s.processes && s.processes[p].depth == 0
    requires forall t | t in s.threads && s.threads[t].process == p :: s.threads[t].phase == Out
    ensures s.processes[p].rlockOwner.Some? <==> HasLeak(s, p)
    ensures s.flock == Some(p) <==> HasStray(s, p)
  {
    assert InitializerOk(s, p);
  }

  // ---- one process's initializer, as the program runs it ----

  datatype AcquireResult = Acquired | ThreadLockTimeout | ProcessLockTimeout | OpenError

  class SerializedInitializer {
    var rlockOwner: Option<Thread>
    var rlockCount: nat
    var depth: nat
    var ownerTid: Option<Thread>
    var fd: bool

    ghost predicate Valid()
      reads this
    {
      && (fd <==> depth > 0) && (fd <==> ownerTid.Some?)
      && (ownerTid.Some? ==> rlockOwner == ownerTid)
      && (rlockOwner.None? <==> rlockCount == 0)
      && rlockCount == depth
    }

    constructor ()
      ensures Valid() && depth == 0
    {
      rlockOwner, rlockCount, depth, ownerTid, fd := None, 0, 0, None, false;
    }

    method ReleaseThreadLock()
      requires rlockCount > 0
      modifies this`rlockOwner, this`rlockCount
      ensures rlockCount == old(rlockCount) - 1
      ensures rlockOwner == if rlockCount == 0 then None else old(rlockOwner)
    {
      rlockCount := rlockCount - 1;
      if rlockCount == 0 {
        rlockOwner := None;
      }
    }

    // `polls` is what each non-blocking file-lock attempt up to the deadline returns.
    method Acquire(tid: Thread, opens: bool, polls: seq<bool>) returns (r: AcquireResult)
      requires Valid()
      modifies this
      ensures Valid()
      ensures r == ThreadLockTimeout <==> old(rlockOwner).Some? && old(rlockOwner) != Some(tid)
      ensures r == Acquired <==> old(ownerTid) == Some(tid) || (old(rlockOwner).None? && opens && true in polls)
      ensures r == Acquired ==> ownerTid == Some(tid) && fd && depth == old(depth) + 1
      ensures r != Acquired ==>
                depth == old(depth) && ownerTid == old(ownerTid) && fd == old(fd)
                && rlockOwner == old(rlockOwner) && rlockCount == old(rlockCount)
    {
      if rlockOwner.Some? && rlockOwner != Some(tid) {
        return ThreadLockTimeout;
      }
      rlockOwner, rlockCount := Some(tid), rlockCount + 1;
      if ownerTid == Some(tid) {
        depth := depth + 1;
        return Acquired;
      }
      if !opens {
        ReleaseThreadLock();
        return OpenError;
      }
      var attempt := 0;
      while attempt < |polls| && !polls[attempt]
        invariant 0 <= attempt <= |polls| && forall i | 0 <= i < attempt :: !polls[i]
      {
        attempt := attempt + 1;
      }
      if attempt == |polls| {
        ReleaseThreadLock();
        return ProcessLockTimeout;
      }
      fd, ownerTid, depth := true, Some(tid), 1;
      return Acquired;
    }

    method ReleaseOnce(tid: Thread) returns (owned: bool)
      requires Valid()
      modifies this
      ensures Valid()
      ensures owned <==> old(ownerTid) == Some(tid)
      ensures owned ==> depth == old(depth) - 1 && (depth == 0 ==> rlockOwner.None? && !fd)
      ensures !owned ==>
                depth == old(depth) && ownerTid == old(ownerTid)
                && rlockCount == old(rlockCount) && rlockOwner == old(rlockOwner)
    {
      owned := ownerTid == Some(tid);
      if !owned {
        return;
      }
      depth := depth - 1;
      if depth == 0 {
        ownerTid, fd := None, false;
      }
      ReleaseThreadLock();
    }
  }
}
