/**
 Partition finalization among any number of store owners.  Every mutation takes
 the manifest's file lock, compares the manifest's digest with the one the store
 remembers, and writes only partitions the manifest does not name; finalizing
 publishes a larger manifest by compare-and-swap.  Threads may interleave, fail
 or crash at every step, and the host may crash, which loses any manifest whose
 directory entry was not synced.  Digests are injective, so a digest is modelled by the
 content it identifies.
 */
module ManifestOwners {
  import opened Options

  type Name = string
  type Content = seq<int>
  type Thread = nat
  type Store = nat

  // Partition name to the digest recorded when it was finalized.
  type Manifest = map<Name, Content>

  datatype Phase =
    | Idle
    | Locked                        // holds the lock, digest not yet compared
    | Owner                         // holds the lock and the remembered digest was current
    | Sealing(pending: Manifest)    // digests collected, manifest about to be replaced
    | Published                     // manifest replaced, new digest not yet remembered

  datatype Actor = Actor(store: Store, phase: Phase)

  datatype State = State(
    files: map<Name, Content>,
    manifest: Option<Manifest>,
    versions: seq<Option<Manifest>>,  // from the last synced manifest to the current one
    lock: Option<Thread>,
    remembered: map<Store, Option<Manifest>>,
    actors: map<Thread, Actor>)

  datatype Event =
    | OpenStore(store: Store)
    | Spawn(thread: Thread, store: Store)
    | Acquire(thread: Thread)
    | CompareDigest(thread: Thread)
    | WritePartition(thread: Thread, name: Name, content: Content)
    | Collect(thread: Thread, names: set<Name>)
    | Publish(thread: Thread)
    | Remember(thread: Thread)
    | Uncertain(thread: Thread)
    | Release(thread: Thread)
    | Fail(thread: Thread)          // any exception or crash; the file lock goes with it
    | HostCrash(version: nat)       // which manifest the directory shows after reboot

  function Entries(manifest: Option<Manifest>): Manifest {
    if manifest.Some? then manifest.value else map[]
  }

  predicate In(s: State, thread: Thread, phase: Phase) {
    thread in s.actors && s.actors[thread].phase == phase
  }

  function To(s: State, thread: Thread, phase: Phase): State
    requires thread in s.actors
  {
    s.(actors := s.actors[thread := s.actors[thread].(phase := phase)])
  }

  function LetGo(s: State, thread: Thread): State
    requires thread in s.actors
  {
    To(s, thread, Idle).(lock := if s.lock == Some(thread) then None else s.lock)
  }

  // What the partition audit checks before anything is finalized.
  predicate AuditOk(s: State) {
    forall name | name in Entries(s.manifest) :: name in s.files && s.files[name] == Entries(s.manifest)[name]
  }

  predicate Current(s: State, thread: Thread) {
    thread in s.actors && s.actors[thread].store in s.remembered && s.remembered[s.actors[thread].store] == s.manifest
  }

  // The manifest with these partitions finalized.
  function Sealed(s: State, names: set<Name>): Manifest {
    Entries(s.manifest) + map name | name in names && name in s.files && name !in Entries(s.manifest) :: s.files[name]
  }

  function Step(s: State, e: Event): State {
    match e
    case OpenStore(store) =>
      if store in s.remembered then s else s.(remembered := s.remembered[store := s.manifest])
    case Spawn(thread, store) =>
      if thread in s.actors || store !in s.remembered then s
      else s.(actors := s.actors[thread := Actor(store, Idle)])
    case Acquire(thread) =>
      if In(s, thread, Idle) && s.lock.None? then To(s, thread, Locked).(lock := Some(thread)) else s
    case CompareDigest(thread) =>
      if !In(s, thread, Locked) then s
      else if Current(s, thread) then To(s, thread, Owner)
      else LetGo(s, thread)
    case WritePartition(thread, name, content) =>
      if In(s, thread, Owner) && name !in Entries(s.manifest) then s.(files := s.files[name := content]) else s
    case Collect(thread, names) =>
      if In(s, thread, Owner) && AuditOk(s)
      then To(s, thread, Sealing(Sealed(s, names))) else s
    case Publish(thread) =>
      if thread in s.actors && s.actors[thread].phase.Sealing? then
        if Current(s, thread)
        then To(s, thread, Published).(manifest := Some(s.actors[thread].phase.pending),
                                       versions := s.versions + [Some(s.actors[thread].phase.pending)])
        else LetGo(s, thread)
      else s
    case Remember(thread) =>
      if In(s, thread, Published)
      then To(s, thread, Owner).(remembered := s.remembered[s.actors[thread].store := s.manifest],
                                 versions := [s.manifest])
      else s
    case Uncertain(thread) =>
      if In(s, thread, Published)
      then LetGo(s, thread).(remembered := s.remembered[s.actors[thread].store := s.manifest])
      else s
    case Release(thread) => if In(s, thread, Owner) then LetGo(s, thread) else s
    case Fail(thread) => if thread in s.actors then LetGo(s, thread) else s
    case HostCrash(version) =>
      if version < |s.versions|
      then State(s.files, s.versions[version], s.versions[..version + 1], None, map[], map[])
      else s
  }

  // ---- the invariant ----

  ghost predicate Seals(s: State, pending: Manifest) {
    && (forall name | name in Entries(s.manifest) :: name in pending && pending[name] == Entries(s.manifest)[name])
    && (forall name | name in pending :: name in s.files && s.files[name] == pending[name])
  }

  // Every name and digest of one manifest is in the other.
  ghost predicate Within(a: Manifest, b: Manifest) {
    forall name | name in a :: name in b && b[name] == a[name]
  }

  // The versions a host crash may bring back grow up to the current one.
  ghost predicate VersionsOk(s: State) {
    && s.versions != [] && s.versions[|s.versions| - 1] == s.manifest
    && (forall i, j | 0 <= i < j < |s.versions| :: Within(Entries(s.versions[i]), Entries(s.versions[j])))
  }

  ghost predicate ActorsOk(s: State) {
    && (forall t | t in s.actors && s.actors[t].phase != Idle :: s.lock == Some(t))
    && (forall t | t in s.actors && (s.actors[t].phase == Owner || s.actors[t].phase.Sealing?) :: Current(s, t))
    && (forall t | t in s.actors && s.actors[t].phase.Sealing? :: Seals(s, s.actors[t].phase.pending))
  }

  ghost predicate Inv(s: State) {
    AuditOk(s) && VersionsOk(s) && ActorsOk(s)
  }

  lemma StepKeepsVersions(s: State, e: Event)
    requires Inv(s)
    ensures VersionsOk(Step(s, e))
  {
  }

  lemma StepKeepsAudit(s: State, e: Event)
    requires Inv(s)
    ensures AuditOk(Step(s, e))
  {
    if e.HostCrash? && e.version < |s.versions| - 1 {
      assert Within(Entries(s.versions[e.version]), Entries(s.versions[|s.versions| - 1]));
    }
  }

  lemma StepKeepsActors(s: State, e: Event)
    requires Inv(s)
    ensures ActorsOk(Step(s, e))
  {
  }

  lemma StepKeepsInv(s: State, e: Event)
    requires Inv(s)
    ensures Inv(Step(s, e))
  {
    StepKeepsVersions(s, e);
    StepKeepsAudit(s, e);
    StepKeepsActors(s, e);
  }

  // What later states keep of a manifest: its names, its digests and the partitions it names.
  ghost predicate Keeps(a: State, manifest: Manifest, b: State) {
    forall name | name in manifest ::
      && name in Entries(b.manifest) && Entries(b.manifest)[name] == manifest[name]
      && name in b.files && name in a.files && b.files[name] == a.files[name]
  }

  ghost predicate Extends(a: State, b: State) {
    Keeps(a, Entries(a.manifest), b)
  }

  // The crash shows a manifest that lacks a name the current one has.
  ghost predicate DropsNames(s: State, e: Event) {
    && e.HostCrash? && e.version < |s.versions|
    && exists name :: name in Entries(s.manifest) && name !in Entries(s.versions[e.version])
  }

  // The only step that does not keep every name and every named partition is a host crash that brings
  // back a manifest from before an unsynced one that named more.
  lemma StepExtends(s: State, e: Event)
    requires Inv(s)
    ensures Extends(s, Step(s, e)) <==> !DropsNames(s, e)
  {
    if e.HostCrash? && e.version < |s.versions| - 1 {
      assert Within(Entries(s.versions[e.version]), Entries(s.versions[|s.versions| - 1]));
    }
  }

  // The manifest of the last publication that was synced.
  function Synced(s: State): Manifest
    requires s.versions != []
  {
    Entries(s.versions[0])
  }

  // What was synced stays through every step, host crashes included.
  ghost predicate ExtendsSynced(a: State, b: State)
    requires a.versions != [] && b.versions != []
  {
    Keeps(a, Synced(a), b) && Within(Synced(a), Synced(b))
  }

  lemma SyncedIsNamed(s: State)
    requires Inv(s)
    ensures Within(Synced(s), Entries(s.manifest))
  {
    if |s.versions| > 1 { assert Within(Entries(s.versions[0]), Entries(s.versions[|s.versions| - 1])); }
  }

  lemma NamedFilesStay(s: State, e: Event)
    requires Inv(s)
    ensures forall name | name in Entries(s.manifest) ::
              name in s.files && name in Step(s, e).files && Step(s, e).files[name] == s.files[name]
  {
  }

  lemma SyncedNamesStay(s: State, e: Event)
    requires Inv(s) && VersionsOk(Step(s, e))
    ensures Within(Synced(s), Synced(Step(s, e)))
  {
    SyncedIsNamed(s);
  }

  lemma StepExtendsSynced(s: State, e: Event)
    requires Inv(s) && Inv(Step(s, e))
    ensures ExtendsSynced(s, Step(s, e))
  {
    NamedFilesStay(s, e);
    SyncedNamesStay(s, e);
    SyncedIsNamed(s);
    SyncedIsNamed(Step(s, e));
    KeepsSynced(s, Step(s, e));
  }

  lemma KeepsSynced(a: State, b: State)
    requires a.versions != [] && b.versions != [] && Within(Synced(a), Synced(b))
    requires Within(Synced(a), Entries(a.manifest)) && Within(Synced(b), Entries(b.manifest))
    requires forall name | name in Entries(a.manifest) ::
               name in a.files && name in b.files && b.files[name] == a.files[name]
    ensures ExtendsSynced(a, b)
  {
  }

  // Every change of a partition is made by a thread that holds the lock, whose store's
  // remembered digest is the manifest's, on a partition the manifest does not name.
  lemma WritesAreOwned(s: State, e: Event, name: Name)
    requires Inv(s)
    requires (name in s.files) != (name in Step(s, e).files)
          || (name in s.files && name in Step(s, e).files && s.files[name] != Step(s, e).files[name])
    ensures e.WritePartition? && e.name == name
    ensures s.lock == Some(e.thread) && Current(s, e.thread) && name !in Entries(s.manifest)
  {
  }

  // Apart from host crashes the manifest changes only by a compare-and-swap against the digest the store remembers,
  // and inside the lock that comparison never fails.
  lemma ManifestSwapsAreCurrent(s: State, e: Event)
    requires Inv(s)
    ensures Step(s, e).manifest != s.manifest ==> e.HostCrash? || (e.Publish? && Current(s, e.thread))
    ensures e.Publish? && e.thread in s.actors && s.actors[e.thread].phase.Sealing? ==>
              Step(s, e).manifest == Some(s.actors[e.thread].phase.pending)
  {
  }

  // ---- what an undisturbed owner achieves ----

  // The thread at some phase under the lock, everything else as it was.
  function Under(s: State, thread: Thread, phase: Phase): State
    requires thread in s.actors
  {
    To(s, thread, phase).(lock := Some(thread))
  }

  predicate MayStart(s: State, thread: Thread) {
    In(s, thread, Idle) && s.lock == None
  }

  // Taking the lock and comparing the digest: an owner whose remembered digest is the manifest's may go on,
  // any other lets go again.
  lemma OwnershipExactly(s: State, thread: Thread)
    requires MayStart(s, thread)
    ensures Step(s, Acquire(thread)) == Under(s, thread, Locked)
    ensures Step(Under(s, thread, Locked), CompareDigest(thread))
         == if s.actors[thread].store in s.remembered && s.remembered[s.actors[thread].store] == s.manifest
            then Under(s, thread, Owner) else s
  {
    var locked := Under(s, thread, Locked);
    assert LetGo(locked, thread).actors == s.actors;
  }

  // An owner writes any partition that the manifest does not name, and no other.
  lemma OwnerWritesExactly(s: State, thread: Thread, name: Name, content: Content)
    requires MayStart(s, thread)
    ensures Step(Under(s, thread, Owner), WritePartition(thread, name, content)).files
         == if s.manifest.Some? && name in s.manifest.value then s.files else s.files[name := content]
  {
  }

  // The manifest that names what was named before, and the given partitions that exist, each with the
  // content it has.
  ghost predicate Finalizes(s: State, names: set<Name>, sealed: Manifest) {
    && (forall name :: name in sealed <==> name in Entries(s.manifest) || (name in names && name in s.files))
    && (forall name | name in sealed :: name in s.files && sealed[name] == s.files[name])
  }

  // That is what an owner seals.
  lemma OwnerSeals(s: State, thread: Thread, names: set<Name>, sealed: Manifest)
    requires Inv(s) && MayStart(s, thread) && Finalizes(s, names, sealed)
    ensures Step(Under(s, thread, Owner), Collect(thread, names)) == Under(s, thread, Sealing(sealed))
  {
    var owner := Under(s, thread, Owner);
    assert Sealed(owner, names) == sealed;
    assert AuditOk(owner);
  }

  // A sealed manifest is published over the one it was built from, then synced and remembered, and the
  // lock is free again.
  lemma OwnerPublishes(s: State, thread: Thread, sealed: Manifest, published: State)
    requires MayStart(s, thread) && Current(s, thread)
    requires published == Step(Under(s, thread, Sealing(sealed)), Publish(thread))
    ensures published == Under(s, thread, Published).(manifest := Some(sealed), versions := s.versions + [Some(sealed)])
  {
  }

  lemma OwnerRemembers(s: State, thread: Thread, published: State, end: State)
    requires thread in s.actors && published == Under(s, thread, Published)
    requires end == Step(Step(published, Remember(thread)), Release(thread))
    ensures end.manifest == s.manifest && end.versions == [s.manifest] && end.files == s.files
    ensures end.lock == None && Current(end, thread)
  {
  }

  // An owner whose publication is uncertain remembers what the manifest is now and lets go.
  lemma UncertainOwnerRemembers(s: State, thread: Thread, published: State, end: State)
    requires thread in s.actors && published == Under(s, thread, Published) && end == Step(published, Uncertain(thread))
    ensures end.manifest == s.manifest && end.versions == s.versions && end.files == s.files
    ensures end.lock == None && In(end, thread, Idle) && Current(end, thread)
  {
  }

  // Any other failure leaves the remembered digest as it was, so that a store which did not learn of its
  // own publication is no longer current.
  lemma FailedOwnerIsStale(s: State, thread: Thread, end: State)
    requires thread in s.actors && s.lock == Some(thread) && end == Step(s, Fail(thread))
    ensures end.remembered == s.remembered && end.manifest == s.manifest && end.files == s.files && end.lock == None
    ensures In(end, thread, Idle) && (Current(end, thread) <==> Current(s, thread))
  {
  }

  // A store opens with the manifest it finds.
  lemma OpenedStoreIsCurrent(s: State, store: Store, thread: Thread)
    requires store !in s.remembered && thread !in s.actors
    ensures var end := Step(Step(s, OpenStore(store)), Spawn(thread, store));
            In(end, thread, Idle) && Current(end, thread)
  {
  }

  // At most one thread is past the lock.
  lemma MutualExclusion(s: State, a: Thread, b: Thread)
    requires Inv(s) && a in s.actors && b in s.actors
    requires s.actors[a].phase != Idle && s.actors[b].phase != Idle
    ensures a == b
  {
  }

  function Run(s: State, events: seq<Event>): State {
    if events == [] then s else Step(Run(s, events[..|events| - 1]), events[|events| - 1])
  }

  lemma ExtendsCompose(a: State, b: State, c: State)
    requires a.versions != [] && b.versions != [] && c.versions != []
    ensures ExtendsSynced(a, b) && ExtendsSynced(b, c) ==> ExtendsSynced(a, c)
    ensures Extends(a, b) && Extends(b, c) ==> Extends(a, c)
  {
  }

  // Over every interleaving: no name leaves the synced manifest, whatever crashes, and a partition it
  // names never changes again; without a host crash the same holds of the current manifest.
  lemma {:induction false} EveryRunExtends(s: State, events: seq<Event>)
    requires Inv(s)
    ensures Inv(Run(s, events)) && ExtendsSynced(s, Run(s, events))
    ensures (forall i | 0 <= i < |events| :: !events[i].HostCrash?) ==> Extends(s, Run(s, events))
  {
    if events == [] {
      SyncedIsNamed(s);
    } else {
      var init, e := events[..|events| - 1], events[|events| - 1];
      var mid := Run(s, init);
      EveryRunExtends(s, init);
      StepKeepsInv(mid, e);
      StepExtendsSynced(mid, e);
      StepExtends(mid, e);
      ExtendsCompose(s, mid, Run(s, events));
    }
  }

  lemma RunAppends(s: State, a: seq<Event>, b: seq<Event>)
    ensures Run(s, a + b) == Run(Run(s, a), b)
    decreases |b|
  {
    if b == [] {
      assert a + b == a;
    } else {
      RunAppends(s, a, b[..|b| - 1]);
      assert (a + b)[..|a + b| - 1] == a + b[..|b| - 1];
    }
  }

  // Between any two moments of any run: what the earlier synced manifest names is still named, with the
  // same digest, and its partition still holds the content that digest was taken of.
  lemma FinalizedBetweenAnyTwoMoments(s: State, events: seq<Event>, i: nat, j: nat)
    requires Inv(s) && i <= j <= |events|
    ensures var earlier, later := Run(s, events[..i]), Run(s, events[..j]);
            && AuditOk(later) && VersionsOk(earlier) && VersionsOk(later) && ExtendsSynced(earlier, later)
            && ((forall k | i <= k < j :: !events[k].HostCrash?) ==> Extends(earlier, later))
  {
    var earlier := Run(s, events[..i]);
    EveryRunExtends(s, events[..i]);
    assert Run(s, events[..j]) == Run(earlier, events[i..j]) by {
      RunAppends(s, events[..i], events[i..j]);
      assert events[..j] == events[..i] + events[i..j];
    }
    RunFromInv(earlier, events[i..j], Run(s, events[..j]));
  }

  lemma RunFromInv(s: State, events: seq<Event>, end: State)
    requires Inv(s) && end == Run(s, events)
    ensures Inv(end) && ExtendsSynced(s, end)
    ensures (forall i | 0 <= i < |events| :: !events[i].HostCrash?) ==> Extends(s, end)
  {
    EveryRunExtends(s, events);
  }

  lemma RunUpTo(s: State, events: seq<Event>, i: nat)
    requires i < |events|
    ensures Run(s, events[..i + 1]) == Step(Run(s, events[..i]), events[i])
  {
    assert events[..i + 1][..i] == events[..i];
  }

  // One moment of a run: the names stay exactly unless it drops some.
  lemma MomentExtends(s: State, events: seq<Event>, i: nat)
    requires Inv(s) && i < |events|
    ensures Inv(Run(s, events[..i])) && Inv(Run(s, events[..i + 1]))
    ensures Extends(Run(s, events[..i]), Run(s, events[..i + 1])) <==> !DropsNames(Run(s, events[..i]), events[i])
  {
    EveryRunExtends(s, events[..i]);
    EveryRunExtends(s, events[..i + 1]);
    RunUpTo(s, events, i);
    StepExtends(Run(s, events[..i]), events[i]);
  }

  // No moment of a run loses a name or changes a named partition, if and only if no host crash brings
  // back a manifest from before an unsynced one that named more.
  lemma NothingLostExactly(s: State, events: seq<Event>)
    requires Inv(s)
    ensures (forall i | 0 <= i < |events| :: Extends(Run(s, events[..i]), Run(s, events[..i + 1])))
       <==> (forall i | 0 <= i < |events| :: !DropsNames(Run(s, events[..i]), events[i]))
  {
    if forall i | 0 <= i < |events| :: !DropsNames(Run(s, events[..i]), events[i]) {
      forall i | 0 <= i < |events| ensures Extends(Run(s, events[..i]), Run(s, events[..i + 1])) {
        MomentExtends(s, events, i);
      }
    }
    if forall i | 0 <= i < |events| :: Extends(Run(s, events[..i]), Run(s, events[..i + 1])) {
      forall i | 0 <= i < |events| ensures !DropsNames(Run(s, events[..i]), events[i]) {
        MomentExtends(s, events, i);
      }
    }
  }

  // No moment of the run drops a name.
  ghost predicate NeverDrops(s: State, events: seq<Event>) {
    events != [] ==>
      var init := events[..|events| - 1];
      NeverDrops(s, init) && !DropsNames(Run(s, init), events[|events| - 1])
  }

  // So every run without such a crash keeps all it started with.
  lemma {:induction false} NoDropExtends(s: State, events: seq<Event>)
    requires Inv(s) && NeverDrops(s, events)
    ensures Extends(s, Run(s, events))
  {
    if events == [] {
      ExtendsItself(s);
    } else {
      var init := events[..|events| - 1];
      NoDropExtends(s, init);
      EveryRunExtends(s, init);
      EveryRunExtends(s, events);
      ExtendsAfter(s, Run(s, init), events[|events| - 1], Run(s, events));
    }
  }

  lemma ExtendsAfter(s: State, mid: State, e: Event, after: State)
    requires Inv(mid) && Extends(s, mid) && !DropsNames(mid, e) && after == Step(mid, e)
    requires s.versions != [] && after.versions != []
    ensures Extends(s, after)
  {
    StepExtends(mid, e);
    ExtendsCompose(s, mid, after);
  }

  lemma ExtendsItself(s: State)
    requires AuditOk(s)
    ensures Extends(s, s)
  {
  }

  // Such a run: a store finalizes its first partition and the host crashes before the directory is
  // synced.  The name is gone and the partition can be written again.
  function FinalizedUnsynced(name: Name): seq<Event> {
    [OpenStore(0), Spawn(0, 0)] + [Acquire(0), CompareDigest(0)] + [Collect(0, {name}), Publish(0)]
  }

  // The store's only thread at some phase.
  function OneStore(start: State, phase: Phase): State {
    start.(lock := if phase == Idle then None else Some(0), remembered := map[0 := None],
           actors := map[0 := Actor(0, phase)])
  }

  // The manifest names the partition, its directory entry is not synced.
  function FirstManifest(start: State, name: Name, content: Content): State {
    OneStore(start, Published).(manifest := Some(map[name := content]), versions := [None, Some(map[name := content])])
  }

  lemma RunOne(s: State, e: Event)
    ensures Run(s, [e]) == Step(s, e)
  {
    assert [e][..0] == [];
  }

  lemma RunTwo(s: State, a: Event, b: Event, mid: State, end: State)
    requires mid == Step(s, a) && end == Step(mid, b)
    ensures Run(s, [a, b]) == end
  {
    RunOne(s, a);
    RunOne(mid, b);
    assert [a] + [b] == [a, b];
    RunAppends(s, [a], [b]);
  }

  lemma Opening(start: State, mid: State)
    requires start == State(start.files, None, [None], None, map[], map[])
    requires mid == start.(remembered := map[0 := None])
    ensures Step(start, OpenStore(0)) == mid && Step(mid, Spawn(0, 0)) == OneStore(start, Idle)
  {
  }

  lemma Owning(start: State)
    requires start == State(start.files, None, [None], None, map[], map[])
    ensures Step(OneStore(start, Idle), Acquire(0)) == OneStore(start, Locked)
    ensures Step(OneStore(start, Locked), CompareDigest(0)) == OneStore(start, Owner)
  {
  }

  lemma Collecting(start: State, name: Name, content: Content)
    requires start == State(map[name := content], None, [None], None, map[], map[])
    ensures Step(OneStore(start, Owner), Collect(0, {name})) == OneStore(start, Sealing(map[name := content]))
  {
    assert Sealed(OneStore(start, Owner), {name}) == map[name := content];
  }

  lemma PublishingFirst(start: State, name: Name, content: Content)
    requires start == State(map[name := content], None, [None], None, map[], map[])
    ensures Step(OneStore(start, Sealing(map[name := content])), Publish(0)) == FirstManifest(start, name, content)
  {
  }

  lemma FinalizedRun(start: State, name: Name, content: Content)
    requires start == State(map[name := content], None, [None], None, map[], map[])
    ensures Run(start, FinalizedUnsynced(name)) == FirstManifest(start, name, content)
  {
    var a, b, c := [OpenStore(0), Spawn(0, 0)], [Acquire(0), CompareDigest(0)], [Collect(0, {name}), Publish(0)];
    var ready, idle, owner := start.(remembered := map[0 := None]), OneStore(start, Idle), OneStore(start, Owner);
    assert Run(start, a) == idle by {
      Opening(start, ready);
      RunTwo(start, OpenStore(0), Spawn(0, 0), ready, idle);
    }
    assert Run(idle, b) == owner by {
      Owning(start);
      RunTwo(idle, Acquire(0), CompareDigest(0), OneStore(start, Locked), owner);
    }
    assert Run(owner, c) == FirstManifest(start, name, content) by {
      Collecting(start, name, content);
      PublishingFirst(start, name, content);
      RunTwo(owner, Collect(0, {name}), Publish(0), OneStore(start, Sealing(map[name := content])),
             FirstManifest(start, name, content));
    }
    RunAppends(start, a, b);
    RunAppends(start, a + b, c);
  }

  lemma HostCrashDropsName(start: State, name: Name, content: Content)
    requires start == State(map[name := content], None, [None], None, map[], map[])
    ensures name in Entries(Run(start, FinalizedUnsynced(name)).manifest)
    ensures Step(Run(start, FinalizedUnsynced(name)), HostCrash(0)).manifest == None
  {
    FinalizedRun(start, name, content);
  }

  // At every moment of every run, the event that changes a partition is a write by the lock
  // holder, whose store's remembered digest is the manifest's at that moment.
  lemma EveryWriteIsOwned(s: State, events: seq<Event>, i: nat, name: Name)
    requires Inv(s) && i < |events|
    requires var before, after := Run(s, events[..i]).files, Run(s, events[..i + 1]).files;
             (name in before) != (name in after) || (name in before && before[name] != after[name])
    ensures events[i].WritePartition? && events[i].name == name
    ensures var before := Run(s, events[..i]);
            && before.lock == Some(events[i].thread) && Current(before, events[i].thread)
            && name !in Entries(before.manifest)
  {
    EveryRunExtends(s, events[..i]);
    assert events[..i + 1][..i] == events[..i];
    WritesAreOwned(Run(s, events[..i]), events[i], name);
  }

  // Any directory of partitions without a manifest is a start state.
  lemma RunsStartWithInv(files: map<Name, Content>)
    ensures Inv(State(files, None, [None], None, map[], map[]))
  {
  }
}
