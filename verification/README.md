# Verified model of the BTC quant agent's capture, backtest and forward-gate logic

A Dafny project that models the parts of `btc_quant_agent` whose correctness is not visible from
any single function, and proves what they are for: that the local order book is the exchange's book,
that the fast status report agrees with simple counting, that the event-driven backtester agrees with
the batch resolver, that finalized partitions and published files never change behind anybody's back,
and that a terminal campaign stays terminal. Verify it with `dafny verify dfyconfig.toml`.

## How it is organised

| file | component |
|---|---|
| `OrderBook.dfy` | REST snapshot joined to the diff-depth stream (`LocalOrderBook`) |
| `Intervals.dfy`, `Grid.dfy` | millisecond coverage, merging, bisect with hints; bucket alignment |
| `BucketCompleteness.dfy` | closed, complete and gap-affected buckets of a partition |
| `RollingGaps.dfy` | filing of gaps by day and the rolling gap count |
| `Aggregates.dfy` | in-place bucket aggregates of trades, book samples and gaps |
| `Lease.dfy` | instances, heartbeats, segments and orphan recovery in one partition |
| `ManifestOwners.dfy` | finalization among many store owners |
| `Publication.dfy` | durable compare-and-swap publication with crashes |
| `InitializerLock.dfy` | reentrant thread-plus-process initializer lock |
| `TradeResolution.dfy`, `BacktestRun.dfy` | one trade two ways; the whole event-driven run |
| `HacVariance.dfy` | Bartlett-weighted long-run sum over timestamp lags |
| `ForwardCampaign.dfy` | slot log, longest miss run, terminal gate |
| `Indicators.dfy`, `RiskReward.dfy` | Wilder/ADX bounds; staged cost diagnosis against the position gate |
| `Options.dfy`, `Domain.dfy`, `Arithmetic.dfy`, `Moments.dfy` | what the other modules share |

Pure functions state what a call computes; classes and loops follow the program's own mutable form and
are proved equal to those functions; the lemmas are about the functions, most of them for every input
or every run.

Modelling choices: floating point is `real`; SQLite tables are sequences or maps and an UPDATE rewrites
every matching row; SHA-256 is injective, so a digest is represented by the content it identifies;
concurrent protocols are step functions over events, so a run is any interleaving of events; clocks, the
exchange, the scanner, signal invalidation and the 15-minute resampling are parameters.

Where the code and the obvious reading differ, the code is modelled: merging drops zero-length gaps but the
rolling count counts them; a gap that ends exactly at a bucket's start touches the bucket; `session_end`
overwrites an ended session; a recovery commits its orphans before it writes their gaps; a failed bootstrap
that never bridged leaves the book as it was; the backtest never compares one bar's close with another's.
Ten statements the design suggests do not hold of every input. For each the project has the failing input
and the exact condition, for all inputs:

- *the engine settles the funding the resolver settles*: for all funding events, if and only if the closes of the held bars never go back (or the notional is zero);
- *PASS means the gate returns a plan*: for all candidates of a direction, if and only if the adverse funding estimate is within the stress rate, no funding event is expected, or the stress costs alone exhaust the risk budget;
- *a cached day summary is what a fresh sweep counts*: with segments unchanged over the day, if and only if every bucket an added gap touches was touched already;
- *a terminal campaign stays terminal*: seen from another time, for all logs, if and only if no fewer slots are expected then, or too few to breach the gate at all;
- *PublicationUncertain is raised exactly when a failure follows the replace*: what a publisher is told is true if and only if no exception came between the replace and its flag, inside the handler, or on the way out of the lock;
- *no name leaves the finalized manifest*: if and only if no host crash brings back a manifest from before an unsynced one that named more;
- *an acquire that failed or was released leaves no lock held*: if and only if no acquire was abandoned by a `BaseException`, and no release raised before giving the thread lock back, since the process started;
- *an immutable artifact keeps its first bytes*: at every moment of a run, if and only if no host crash takes back an unsynced replacement;
- *every orphaned instance has its gap*: if and only if no recovery was cut off between orphaning and the last gap, which for recoveries that are not killed means that no expired lease ended on a finalized day;
- *an ended session keeps its row*: a call changes it if and only if it ends the session again, at another time or after it was orphaned.

## Model

| member | source | states |
|---|---|---|
| OrderBook.EveryRunMirrorsExchange | src/btc_quant_agent/microstructure.py:227-259 | for any calls whose snapshots are the exchange book at `lastUpdateId` and whose events carry every price changed after `pu`, a bootstrapped book equals the exchange's book at `update_id`, with no zero level |
| OrderBook.EveryRunMirrorsKnownPrices | src/btc_quant_agent/microstructure.py:227-259 | with snapshots cut at a depth limit: the local quantity of every price the snapshot listed or an applied event carried is the exchange's at `update_id` |
| OrderBook.OverlapCatchesUp | src/btc_quant_agent/microstructure.py:242-249 | applying an event to the true side at any id inside [pu, u], as the bridging event does, gives the true side at u |
| OrderBook.EveryRunStoresNoZero | src/btc_quant_agent/microstructure.py:232-249 | whatever is fed in, no level with quantity zero is ever stored |
| OrderBook.BootstrapSplits | src/btc_quant_agent/microstructure.py:227-259 | bootstrapping on b + l is bootstrapping on b and applying l one by one: same book, same count, same SequenceGap |
| OrderBook.BridgedBufferIsAccepted | src/btc_quant_agent/microstructure.py:227-240 | on the ids alone: if the first buffered event to reach `lastUpdateId` starts no later than it and the later ones follow on without a break, all events from it on are applied and the book ends at the last id |
| OrderBook.UnbridgedBufferIsRefused | src/btc_quant_agent/microstructure.py:228-231 | if no event reaches `lastUpdateId`, or the first that does starts after it, SequenceGap is raised and the book stays as it was |
| OrderBook.BrokenBufferResets | src/btc_quant_agent/microstructure.py:237-258 | the first newer event that does not follow on the one before it resets the book |
| OrderBook.ReplayIsIgnored | src/btc_quant_agent/microstructure.py:254-255 | events up to the book's id change nothing and are not counted |
| OrderBook.SnapshotMeaning | src/btc_quant_agent/microstructure.py:232-233 | a price of the snapshot has the last non-zero quantity listed for it |
| OrderBook.GapLeavesBookReset | src/btc_quant_agent/microstructure.py:251-259 | a run of `apply` that raises SequenceGap leaves the book reset, otherwise it stays bootstrapped |
| OrderBook.UnbrokenStreamIsAccepted | src/btc_quant_agent/microstructure.py:251-259 | an unbroken stream from the book's id is applied in full and ends at its last id |
| OrderBook.LocalOrderBook.BootstrapFrom | src/btc_quant_agent/microstructure.py:227-240 | the in-place bootstrap, with its early raise and its reset on a `pu` break, does exactly `Bootstrap` |
| OrderBook.LocalOrderBook.ApplyEvent | src/btc_quant_agent/microstructure.py:251-259 | the in-place apply does exactly `Apply`: stale skipped, break resets, otherwise levels overlaid |
| HacVariance.BartlettIsWindowSquares | src/btc_quant_agent/h39_statistics.py:251-265 | (L+1) times the Bartlett sum is the sum of squared length-(L+1) window sums of the zero-filled scores |
| HacVariance.LongRunSumSign | src/btc_quant_agent/h39_statistics.py:251-278 | for strictly increasing on-grid timestamps with any missing slots the long-run sum is never negative, and zero exactly when every score is |
| HacVariance.LongRunSum | src/btc_quant_agent/h39_statistics.py:251-265 | the dictionary-driven double loop computes the Bartlett sum of the zero-filled grid, and each pair count is the number of rows with a partner at that lag |
| HacVariance.HacVarianceOf | src/btc_quant_agent/h39_statistics.py:134-279 | which guard refuses which input, and a testable result is a positive variance |
| Intervals.MergeMeaning | src/btc_quant_agent/microstructure.py:1469-1483 | merging gives ascending, strictly separated intervals that cover the same milliseconds and reach as far as the positive-length raw ones |
| Intervals.TwoLevelMergeMeaning | src/btc_quant_agent/microstructure.py:1519-1522 | merging per partition and then across partitions keeps the cover and the reach of all raw gaps |
| Intervals.FastFormsAgree | src/btc_quant_agent/microstructure.py:1469-1522 | covered milliseconds on merged segments, and gaps touched on twice-merged gaps, are those of the raw lists |
| Intervals.CoveredMs | src/btc_quant_agent/microstructure.py:1085-1110 | the clipped, sorted sweep returns the number of covered milliseconds of the window |
| Intervals.FastCovered | src/btc_quant_agent/microstructure.py:1485-1500 | bisect from a carried hint returns the number of covered milliseconds, and a hint valid for every later bucket |
| Intervals.FastHasGap | src/btc_quant_agent/microstructure.py:1502-1514 | true exactly when some interval starts before the bucket's end and ends at or after its start |
| BucketCompleteness.MergeFeeds | src/btc_quant_agent/microstructure.py:1516-1522 | the four merged lists the report builds cover what their raw lists cover |
| BucketCompleteness.SweepBuckets | src/btc_quant_agent/microstructure.py:1574-1597 | the ascending sweep with four carried hints counts what judging each bucket on its own counts |
| BucketCompleteness.MergedCountsAreRaw | src/btc_quant_agent/microstructure.py:1574-1597 | judging buckets by merged intervals is judging them by the raw ones |
| BucketCompleteness.ActiveIsFinalized | src/btc_quant_agent/microstructure.py:1615-1643 | once the day is over the active-partition range counts what the finalized range counts |
| BucketCompleteness.CachedSummaryIsFinalized | src/btc_quant_agent/microstructure.py:1540-1571 | a summary that passes the evaluation-start test, from intervals agreeing over the day, is what a fresh sweep gives |
| BucketCompleteness.ReportsAfterTheDayAgree | src/btc_quant_agent/microstructure.py:1419-1423 | cutting open segments at the report time does not change a day that is already over |
| BucketCompleteness.CompleteAndGapsWithinClosed | src/btc_quant_agent/microstructure.py:1591-1607 | complete plus gap-affected never exceeds closed |
| BucketCompleteness.CountPartition | src/btc_quant_agent/microstructure.py:1532-1643 | whichever branch a partition takes, its counts are the simple ones; a reused summary gives those of the intervals it was made from, which are the current ones if these agree over the day |
| BucketCompleteness.FinalizedCountsAre | src/btc_quant_agent/microstructure.py:1574-1597 | the closed count of a finalized partition is the number of grid buckets of its day that end after the evaluation start; complete and gap-affected count those of them with enough of each feed and no gap, and with a gap |
| BucketCompleteness.ActiveCountsAre | src/btc_quant_agent/microstructure.py:1615-1643 | an active partition counts those of them that have ended by now |
| BucketCompleteness.SummaryIsCurrentExactly | src/btc_quant_agent/microstructure.py:1540-1571 | with segments unchanged over the day and gap rows only added, a reused summary is what a fresh sweep gives if and only if every bucket an added gap touches was touched by an earlier gap |
| BucketCompleteness.StaleSummaryExample | src/btc_quant_agent/microstructure.py:1540-1549 | a gap filed under an earlier day that reaches into a finalized day without gaps makes the reused counts wrong |
| RollingGaps.EveryRunIsFiled | src/btc_quant_agent/microstructure.py:690-699 | after any gap() calls every row lies in the partition of its start day and ends no earlier than it starts |
| RollingGaps.EveryGapIsStored | src/btc_quant_agent/microstructure.py:690-699 | after any gap() calls each partition holds exactly the accepted gaps of its day, in order |
| RollingGaps.ScanGaps | src/btc_quant_agent/microstructure.py:1344-1369 | one pass over the ordered rows yields the count, extremes, spill list and merged intervals |
| RollingGaps.ShortcutIsPlainCount | src/btc_quant_agent/microstructure.py:1680-1698 | every branch of the case split contributes the plain count of the partition's gaps in the window |
| RollingGaps.RollingCount | src/btc_quant_agent/microstructure.py:1655-1698 | the rolling count is the plain count over all rows of all partitions, for every window |
| RollingGaps.MisfiledRowIsMiscounted | src/btc_quant_agent/microstructure.py:1681-1682 | the whole-day branch relies on the filing rule |
| Aggregates.EveryRunIsGrouped | src/btc_quant_agent/microstructure.py:597-709 | after any inserts, duplicates included, the aggregates are the group-by of the distinct stored rows at all three intervals |
| Aggregates.FirstRowsAreStored | src/btc_quant_agent/microstructure.py:597-699 | after any inserts the first row of every key is stored |
| Aggregates.OnlyInsertedIsStored | src/btc_quant_agent/microstructure.py:597-699 | nothing is stored that was not inserted |
| Aggregates.TradeColumns | src/btc_quant_agent/microstructure.py:624-639 | a bucket's trade columns are the number of its trades, and the quantity and value of its aggressive buys and of its aggressive sells |
| Aggregates.SampleColumns | src/btc_quant_agent/microstructure.py:641-688 | a bucket's sample columns are the number of its samples and the sums of each statistic |
| Aggregates.GapColumn | src/btc_quant_agent/microstructure.py:700-709 | a bucket's gap column is the number of gaps that start before its end and end at or after its start |
| Aggregates.CoarseRowIsSumOfFineRows | src/btc_quant_agent/microstructure.py:624-687 | a coarse row's trade and sample totals are the sums of its fine rows |
| Aggregates.UpsertGapMeaning | src/btc_quant_agent/microstructure.py:700-709 | a gap adds one to exactly the buckets from its first to its last |
| Aggregates.DayPartition.InsertTrade | src/btc_quant_agent/microstructure.py:597-639 | insert-or-ignore with its three upserts, and the duplicate or conflict counter otherwise |
| Aggregates.DayPartition.InsertSample | src/btc_quant_agent/microstructure.py:641-688 | insert-or-ignore of a book sample with its three upserts |
| Aggregates.DayPartition.InsertGap | src/btc_quant_agent/microstructure.py:690-709 | the gap row and the bucket loop at the three intervals |
| Lease.EveryRunKeeps | src/btc_quant_agent/microstructure.py:711-921 | over every run, cut-off recoveries included, closed and orphaned segments and ended instances never change, the gap log only grows, and each gap has positive length and is the only one of an orphaned instance, starting where its lease ended |
| Lease.GapsMatchOrphansExactly | src/btc_quant_agent/microstructure.py:730-762 | gaps never outnumber orphaned instances, and are as many if and only if no recovery was cut off |
| Lease.EveryOrphanHasItsGapExactly | src/btc_quant_agent/microstructure.py:752-762 | every orphaned instance has its gap if and only if no recovery was cut off between the commit of the orphans and the last gap |
| Lease.GapWrittenExactly | src/btc_quant_agent/microstructure.py:503-506 | a recovery that only finalized days can stop writes a row's gap exactly when no row up to it has its lease end on a finalized day |
| Lease.GapsUnlessFinalized | src/btc_quant_agent/microstructure.py:756-762 | in every run in which no call is killed, every orphaned instance has its gap if and only if no recovery selected a row whose lease ended on a finalized day |
| Lease.CutOffLeavesOrphan | src/btc_quant_agent/microstructure.py:752-762 | a recovery that stops before a row's gap leaves that row orphaned without one |
| Lease.NeverRepaired | src/btc_quant_agent/microstructure.py:711-762 | an ended instance without a gap gets none from any later call |
| Lease.OrphaningLeavesOneGap | src/btc_quant_agent/microstructure.py:730-762 | an expired instance is orphaned at the end of its lease, its OPEN segments are closed there, and unless the recovery is cut off a gap runs from there to now |
| Lease.OrphanedExactly | src/btc_quant_agent/microstructure.py:717-742 | a recovery orphans exactly the ACTIVE instances whose last heartbeat is more than the timeout ago, the caller excepted |
| Lease.OrphanedSessionsEnd | src/btc_quant_agent/microstructure.py:743-747 | the connected sessions of an orphaned instance end where its lease did |
| Lease.HeartbeatNeverOrphansItsCaller | src/btc_quant_agent/microstructure.py:791-832 | a live caller stays ACTIVE, with its lease renewed unless the recovery before it raised something the heartbeat does not catch |
| Lease.HeartbeatExtendsCoverage | src/btc_quant_agent/microstructure.py:825-828 | a heartbeat moves the end of the caller's OPEN segments to now |
| Lease.HeartbeatTouchesSessions | src/btc_quant_agent/microstructure.py:820-824 | and the heartbeat of its connected sessions |
| Lease.StartsFresh | src/btc_quant_agent/microstructure.py:765-789 | a new instance is ACTIVE, a new session connected with one OPEN segment that is valid from the start for trades only |
| Lease.EndInstanceClosesEverything | src/btc_quant_agent/microstructure.py:891-921 | ending an instance leaves nothing of it active, connected or open |
| Lease.EndInstanceClosesAtNow | src/btc_quant_agent/microstructure.py:891-921 | the instance and its OPEN segments are closed at now |
| Lease.EndInstanceClosesSessions | src/btc_quant_agent/microstructure.py:910-914 | and so are its connected sessions |
| Lease.EndSessionClosesItsStream | src/btc_quant_agent/microstructure.py:876-885 | ending a session closes the OPEN segments of its instance and stream, and no others |
| Lease.DepthStateLeavesOneOpen | src/btc_quant_agent/microstructure.py:834-859 | a depth state change leaves one OPEN depth segment, the new one, or none if it is cut off between its two transactions |
| Lease.DepthStateClosesDepthOnly | src/btc_quant_agent/microstructure.py:846-851 | the OPEN depth segments of the instance are closed at now, and no other segment |
| Lease.EndedSessionChangesExactly | src/btc_quant_agent/microstructure.py:876-879 | an ended session's row changes exactly when the session is ended again, at another time or after having been orphaned |
| Lease.EndedSessionOverRuns | src/btc_quant_agent/microstructure.py:711-921 | over every run an ended session's row is as it was, or closed at the last time it was ended again |
| Lease.LeasePartition.RecoverOrphans | src/btc_quant_agent/microstructure.py:711-763 | the orphan loop and the gap loop, which may stop at any gap, do exactly `Recover` and return the number recovered |
| ManifestOwners.EveryRunExtends | src/btc_quant_agent/microstructure.py:1017-1076 | over every interleaving, host crashes included, no name leaves the synced manifest and a partition it names never changes again; without a host crash the same holds of the current manifest |
| ManifestOwners.StepExtends | src/btc_quant_agent/microstructure.py:1066-1075 | a step loses a name exactly when a host crash brings back a manifest from before an unsynced one |
| ManifestOwners.NothingLostExactly | src/btc_quant_agent/microstructure.py:1066-1075 | no moment of a run loses a name or changes a named partition if and only if no host crash drops an unsynced name |
| ManifestOwners.NoDropExtends | src/btc_quant_agent/microstructure.py:1017-1076 | a run without such a crash keeps every name, digest and named partition it started with |
| ManifestOwners.HostCrashDropsName | src/btc_quant_agent/microstructure.py:1066-1075 | the failing run: the first partition is finalized and the host crashes before the directory is synced |
| ManifestOwners.FinalizedBetweenAnyTwoMoments | src/btc_quant_agent/microstructure.py:1017-1076 | between any two moments of a run the earlier synced manifest's names keep their digests, and each named partition holds exactly what its digest was taken of |
| ManifestOwners.EveryWriteIsOwned | src/btc_quant_agent/microstructure.py:35-64 | at every moment of every run a partition changes only by a write under the lock, by an owner whose remembered digest is current, to a partition the manifest does not name |
| ManifestOwners.OwnershipExactly | src/btc_quant_agent/microstructure.py:35-64 | a thread that takes the lock may go on exactly when its store remembers the manifest's digest, and lets go otherwise |
| ManifestOwners.OwnerWritesExactly | src/btc_quant_agent/microstructure.py:493-506 | an owner writes any partition that the manifest does not name, and no other |
| ManifestOwners.OwnerSeals | src/btc_quant_agent/microstructure.py:1023-1064 | what an owner seals names what was named before and the chosen partitions, each with the digest of its content |
| ManifestOwners.OwnerPublishes | src/btc_quant_agent/microstructure.py:1066-1074 | a sealed manifest is published over the one it was built from |
| ManifestOwners.OwnerRemembers | src/btc_quant_agent/microstructure.py:1075-1076 | after a completed publication the store is current and the lock free |
| ManifestOwners.UncertainOwnerRemembers | src/btc_quant_agent/microstructure.py:60-63 | after an uncertain one the store remembers what the manifest is now |
| ManifestOwners.ManifestSwapsAreCurrent | src/btc_quant_agent/microstructure.py:1066-1075 | apart from host crashes the manifest changes only by a compare-and-swap that is current, and under the lock it never fails |
| ManifestOwners.MutualExclusion | src/btc_quant_agent/microstructure.py:493-506 | at most one thread is past the lock |
| Publication.TargetIsAlwaysWhole | src/btc_quant_agent/publication.py:66-94 | under any interleaving and crashes readers see the initial content or one whole submitted payload |
| Publication.SwapsFormOneChain | src/btc_quant_agent/publication.py:71-73 | each compare-and-swap version stands on exactly the content it expected |
| Publication.UncertainExactlyAfterReplace | src/btc_quant_agent/publication.py:66-94 | in every run without a host crash, "a version in the history exactly for success or PublicationUncertain" holds of a publisher that was told its outcome if and only if no exception came before the flag, inside the handler, or on the way out of the lock after its replace |
| Publication.EverybodyToldTheTruth | src/btc_quant_agent/publication.py:66-94 | the same for all publishers of a run at once |
| Publication.HiddenReplacements | src/btc_quant_agent/publication.py:51-93 | the failing runs: an exception right after the replace, and one on the way out of the lock after a confirmed publication, are told as plain exceptions although the target was replaced |
| Publication.RefusedNeverReplaces | src/btc_quant_agent/publication.py:66-94 | in every run, host crashes included, a conflict or a plain exception that hid nothing means no version of that publisher is in the history, a normal return means there is one, and a hidden one was told as a plain exception |
| Publication.InspectExactly | src/btc_quant_agent/publication.py:71-73 | under the lock an immutable request finds its own bytes, other bytes or none, and a compare-and-swap the expected content or not; this alone decides between already there, conflict and writing |
| Publication.RefusalsAreExplained | src/btc_quant_agent/formal_research.py:226-234 | in every run a publisher told AlreadyThere found exactly its payload under the lock, and one told Conflict found what rules its request out |
| Publication.UndisturbedPublication | src/btc_quant_agent/publication.py:66-94 | undisturbed, a request that is not ruled out is told that it succeeded, with its payload in the target, synced, and the lock free |
| Publication.LockLeftExactly | src/btc_quant_agent/publication.py:46-55 | in every run a publisher that is through still holds the lock if and only if an exception kept it from unlocking and its process lives |
| Publication.ConfirmedSurvives | src/btc_quant_agent/publication.py:84-94 | a publication that returned normally stays in the history through every later crash |
| Publication.ImmutableKeepsFirstBytes | src/btc_quant_agent/formal_research.py:226-234 | a step changes a readable immutable artifact exactly when it is a host crash that takes back an unsynced version |
| Publication.FirstBytesStayExactly | src/btc_quant_agent/formal_research.py:226-234 | over a run the first bytes are readable at every moment if and only if no such crash happens |
| Publication.UnsyncedArtifactIsTakenBack | src/btc_quant_agent/publication.py:84-93 | such a crash: the publisher dies between the replace and the directory sync |
| Publication.SyncedImmutableIsForever | src/btc_quant_agent/formal_research.py:226-234 | a synced immutable artifact keeps its bytes through every run |
| Publication.Directory.PublishBytes | src/btc_quant_agent/publication.py:46-94 | one publisher with an injected failure in the body and one on leaving the lock: outcome, target, lock and cleanup of the temporary file, from the mode and what the target held |
| InitializerLock.AtMostOneInside | src/btc_quant_agent/live_db.py:43-92 | in every reachable state at most one thread of one process is inside |
| InitializerLock.FreeInitializerIsAcquired | src/btc_quant_agent/live_db.py:43-72 | a thread that finds both locks free gets in, as the owner of depth one with the descriptor |
| InitializerLock.OwnerReenters | src/btc_quant_agent/live_db.py:51-54 | the owner gets in again without touching the file lock |
| InitializerLock.ReleaseGivesBackOne | src/btc_quant_agent/live_db.py:77-92 | an ordinary release gives back one acquire, and the file lock with the last one only |
| InitializerLock.DepthIsOutstanding | src/btc_quant_agent/live_db.py:51-90 | depth is the owner's outstanding acquires, the descriptor is held exactly while it is positive, and the file lock exactly then, while an acquire is recording it, or after one was abandoned with it |
| InitializerLock.FinalReleaseLeavesNothing | src/btc_quant_agent/live_db.py:77-92 | the final release drops the file lock, and the thread lock exactly when the unlock succeeds and nothing was leaked |
| InitializerLock.FailedAcquireLeavesNothing | src/btc_quant_agent/live_db.py:56-75 | an acquire that fails by an ordinary exception leaves the file lock alone and the thread lock free exactly when nothing was leaked before |
| InitializerLock.LocksHeldExactlyWhenAbandoned | src/btc_quant_agent/live_db.py:43-92 | in every run, once no thread of a living process holds the initializer or is inside acquire, its thread lock is held if and only if an acquire was abandoned since it started, and the file lock if and only if one was abandoned after taking it |
| InitializerLock.LeakedExactlyWhenAbandoned | src/btc_quant_agent/live_db.py:43-92 | the same at every moment, on the number of abandoned acquires: an interrupt inside acquire, or a release that raises before giving the thread lock back |
| InitializerLock.InterruptedAcquireLeaks | src/btc_quant_agent/live_db.py:47-75 | a BaseException anywhere inside acquire leaves the thread lock held, and after the file lock was taken that one too |
| InitializerLock.LeakIsPermanent | src/btc_quant_agent/live_db.py:43-92 | a leak lasts through every run until the process dies: no thread of the process with another ident gets in, and with a stray file lock nobody of any process |
| InitializerLock.ReusedIdentGetsPast | src/btc_quant_agent/live_db.py:47-54 | a new thread that is given the ident of the dead owner does get past the thread lock |
| InitializerLock.SerializedInitializer.Acquire | src/btc_quant_agent/live_db.py:43-75 | who gets in, and every field unchanged after a timeout or a failed open |
| InitializerLock.SerializedInitializer.ReleaseOnce | src/btc_quant_agent/live_db.py:77-92 | only the owner releases; the last release clears owner, descriptor and thread lock |
| TradeResolution.EngineAgreesWithResolver | src/btc_quant_agent/backtest.py:122-203 | from the bar that fills a signal, whatever the closes do, following it bar by bar gives the batch resolver's kind, exit and times; funding is settled over the same held bars, once per bar instead of once |
| TradeResolution.AgreesExactlyWhenClosesAscend | src/btc_quant_agent/backtest.py:372-377 | the two report the same outcome for every list of funding events if and only if the held closes never go back |
| TradeResolution.DescentIsPaidTwice | src/btc_quant_agent/backtest.py:372-377 | a funding event at a close that the next held bar falls short of makes the two disagree |
| TradeResolution.FollowIsHeld | src/btc_quant_agent/backtest.py:360-395 | from any intermediate state of an open trade the engine ends it as the resolver does, up to the funding total |
| TradeResolution.FollowSettlesPiecewise | src/btc_quant_agent/backtest.py:372-377 | what the engine has paid is the sum of one settlement per held bar, each from the previous close |
| TradeResolution.PiecewiseExactlyWhenAscending | src/btc_quant_agent/backtest.py:372-377 | one settlement per close equals one settlement for every event list if and only if closes never go back |
| TradeResolution.ResolveSignal | src/btc_quant_agent/backtest.py:122-203 | the single loop does exactly `Resolve`: skip, expire, fill, deadline, stop before target |
| TradeResolution.ResolvedExactly | src/btc_quant_agent/backtest.py:122-203 | WIN exactly when, from the first bar that fills the signal, some bar within the deadline reaches the target and no bar up to it reaches the stop; LOSS exactly when the first bar to reach either reaches the stop |
| TradeResolution.ResolveUnfilled | src/btc_quant_agent/backtest.py:177-180 | if no bar enters the zone before the expiry the signal is UNFILLED, or PENDING while it is too early to say |
| TradeResolution.HeldTimesOutAt | src/btc_quant_agent/backtest.py:181-203 | a trade that times out is exited at the close of the last bar that counts before the deadline |
| TradeResolution.ResolvedProfit | src/btc_quant_agent/backtest.py:76-95 | the gross of a trade is quantity times exit less quantity times entry for a long, the opposite for a short; the net takes off the costs and adds the funding |
| TradeResolution.FollowedProfit | src/btc_quant_agent/backtest.py:360-395 | the same of what the engine reports |
| TradeResolution.WinsGainAndLossesLose | src/btc_quant_agent/backtest.py:85-90 | with the stop on the losing and the target on the winning side, a WIN has a positive gross and a LOSS a negative one |
| TradeResolution.FundingIsPaidByLongs | src/btc_quant_agent/backtest.py:65-73 | a long pays exactly when the rate is positive, a short exactly when it is negative, the rate on the position's value at the mark |
| TradeResolution.FundingAddsUp | src/btc_quant_agent/backtest.py:150-203 | an event adds its cash to the outcome exactly when it falls after the entry and not after the exit |
| TradeResolution.Position.UpdateOpen | src/btc_quant_agent/backtest.py:360-395 | the in-place update with event-by-event funding does exactly `Update` |
| BacktestRun.EachAdmittedSignalOnce | src/btc_quant_agent/backtest.py:397-540 | with distinct ids, every admitted signal gets exactly one outcome and nothing else does |
| BacktestRun.AdmissionsRespectCooldown | src/btc_quant_agent/backtest.py:515-523 | two admitted signals with one fingerprint are more than the cooldown apart |
| BacktestRun.FilledResultsAgreeWithResolver | src/btc_quant_agent/backtest.py:418-454 | every WIN, LOSS or TIMEOUT a run returns is, for the admitted signal that carries its id, what resolve_signal reports from the fill bar on, with funding settled bar by bar; the same outcome if the held closes never go back |
| BacktestRun.FirstReachedIsEntered | src/btc_quant_agent/backtest.py:424-454 | if no trade is open before a bar, the earliest pending signal that the bar reaches in time is entered at it, with the holding time of its setup |
| BacktestRun.NobodyReachedNobodyEntered | src/btc_quant_agent/backtest.py:424-454 | if it reaches none, nothing is entered |
| BacktestRun.UnfilledWasNeverReached | src/btc_quant_agent/backtest.py:425-431 | a signal reported UNFILLED by a bar after its expiry was reached by no earlier bar while no trade was open, except one that also reached a signal before it in line |
| BacktestRun.AdmittedExactly | src/btc_quant_agent/backtest.py:512-523 | a signal scanned at a quarter close is admitted, and waits, exactly when no trade is open and no earlier admission of its fingerprint lies within the cooldown |
| BacktestRun.QuarterSweeps | src/btc_quant_agent/backtest.py:463-475 | a waiting signal with a reason becomes UNFILLED for TTL_EXPIRED and INVALIDATED otherwise, one millisecond after the close |
| BacktestRun.LeftAtTheEnd | src/btc_quant_agent/backtest.py:524-540 | what the run adds at its end is OPEN_AT_END for the open trade and PENDING for those still waiting |
| BacktestRun.TradesNeverOverlap | src/btc_quant_agent/backtest.py:418-454 | whatever the bars, trades are held one after another: each is filled at a bar after the bar at which the trade before it ended |
| BacktestRun.ExitedBeforeNextEntry | src/btc_quant_agent/backtest.py:418-454 | over bars that close before the next opens, each trade is entered after the exit time of the earlier ones |
| BacktestRun.RunBacktest | src/btc_quant_agent/backtest.py:397-540 | the bar loop with its inner loops returns the outcomes of the run function |
| ForwardCampaign.TerminalIsIrreversible | src/btc_quant_agent/opportunity_forward.py:996-1060 | once terminal, with a clock that does not run backwards, the collector never changes the store and the campaign stays terminal |
| ForwardCampaign.LongestIsMaximum | src/btc_quant_agent/opportunity_forward.py:807-815 | the reported number is the length of some run of missed slots and no run is longer |
| ForwardCampaign.ExpectedSlots | src/btc_quant_agent/opportunity_forward.py:789-797 | the expected slots are exactly the grid points from the start to the latest due one |
| ForwardCampaign.LogIsAppendOnly | src/btc_quant_agent/opportunity_forward.py:494-560 | a recorded slot is never replaced or removed |
| ForwardCampaign.CollectedExactly | src/btc_quant_agent/opportunity_forward.py:494-560 | the refusals in order, and otherwise an empty slot is recorded, a repeated payload counted, another payload rejected without a trace |
| ForwardCampaign.RecordedSlotIsMissedUnless | src/btc_quant_agent/opportunity_forward.py:771-778 | a recorded slot counts as missed unless a healthy scheduled scan decided on a bar that closed before it started |
| ForwardCampaign.TerminalCarriesOverExactly | src/btc_quant_agent/opportunity_forward.py:807-849 | every log terminal at one time is terminal at another if and only if no fewer slots are expected then, or too few at the first time to breach the gate |
| ForwardCampaign.CollectorRefusesExactly | src/btc_quant_agent/opportunity_forward.py:1003-1012 | a collection leaves every store alone that is terminal at t if and only if it comes before the start or the verdict carries over to its time |
| ForwardCampaign.RefusedRunChangesNothing | src/btc_quant_agent/opportunity_forward.py:996-1060 | a run of such collections changes nothing, clock rollbacks inside the condition included |
| ForwardCampaign.ClockRollbackRevives | src/btc_quant_agent/opportunity_forward.py:1003-1012 | a clock that steps back before the only due slot lets the collector fill it, and the campaign is no longer terminal |
| ForwardCampaign.DataQualityMetrics | src/btc_quant_agent/opportunity_forward.py:780-852 | the scan computes the longest run and the terminal flag; successful, recorded-missed and missing slots partition the expected ones |
| ForwardCampaign.ForwardStore.CollectOnce | src/btc_quant_agent/opportunity_forward.py:996-1060 | the guarded collection does exactly `Collect`, with its refusals in order |
| Indicators.SmoothedMovementsWithinRange | src/btc_quant_agent/indicators.py:51-75 | at every bar the smoothed movements are non-negative and sum to at most the smoothed true range |
| Indicators.IndicatorsWithinHundred | src/btc_quant_agent/indicators.py:72-74 | +DI and -DI are non-negative and sum to at most 100 |
| Indicators.AdxWithinBounds | src/btc_quant_agent/indicators.py:51-76 | every ADX value of proper candles lies in [0, 100] |
| Indicators.Adx | src/btc_quant_agent/indicators.py:51-76 | the loops compute the smoothed directional index, the error cases, and the bounds |
| Indicators.Wilder | src/btc_quant_agent/indicators.py:35-42 | the loop appends the smoothed value of every prefix, or refuses |
| Indicators.TrueRanges | src/btc_quant_agent/indicators.py:18-32 | the loop appends each bar's true range, or refuses |
| Indicators.TrueRangeIsSpan | src/btc_quant_agent/indicators.py:18-32 | the true range is what the bar spans together with the close before it |
| Indicators.MovementsExactly | src/btc_quant_agent/indicators.py:56-66 | the larger of the two moves counts, neither if they are equal |
| Indicators.DirectionalIndexIsImbalance | src/btc_quant_agent/indicators.py:67-75 | the index is the imbalance of the movements in percent of their sum, whatever the range is |
| RiskReward.PassExactlyWhenPlanned | src/btc_quant_agent/mechanism.py:63-149 | the diagnosis says PASS exactly when the gate returns a plan, if the adverse funding estimate is within the stress rate |
| RiskReward.PlanImpliesPass | src/btc_quant_agent/risk.py:14-70 | a plan always implies PASS |
| RiskReward.DisagreementIsExact | src/btc_quant_agent/mechanism.py:63-149 | for each direction, strategy, ATR and risk setting, diagnosis and gate agree on all candidates if and only if the adverse funding estimate is within the stress rate, no funding event is expected, or the stress costs exhaust the risk budget |
| RiskReward.MarginalTradeSeparates | src/btc_quant_agent/risk.py:28-54 | where that fails, a trade sized exactly at the minimum notional passes the diagnosis and is refused by the gate |
| RiskReward.UnstressedFundingSeparates | src/btc_quant_agent/config.py:106-116 | the default settings with a one percent funding estimate and an ordinary long trade are such a case |
| RiskReward.StagesAddNothing | src/btc_quant_agent/mechanism.py:59-128 | the staged checks pass exactly when the check with all costs passes |
| RiskReward.ReasonExactly | src/btc_quant_agent/mechanism.py:103-128 | which reason is given: the first stage whose costs the reward does not cover, then the size |
| RiskReward.RequiredTargetIsExact | src/btc_quant_agent/mechanism.py:129-144 | moving the target to the required price makes the net ratio exactly the minimum |
| RiskReward.NetReachesMinimumExactly | src/btc_quant_agent/mechanism.py:129-136 | the net ratio reaches the minimum exactly when the reward reaches the required share |
| RiskReward.PlanRiskIsBounded | src/btc_quant_agent/risk.py:50-70 | a plan risks at most the configured share of equity, within the notional bounds and at or above the minimum ratio |
| RiskReward.PlanIsAsLargeAsAllowed | src/btc_quant_agent/risk.py:50-54 | a plan uses up the risk budget or the notional cap |
| RiskReward.PlanPrices | src/btc_quant_agent/risk.py:14-27 | entry, stop, target and gross ratio of a plan against the candidate |
| RiskReward.GateChargesExactly | src/btc_quant_agent/risk.py:29-39 | what the gate charges for fees, slippage and funding |
| RiskReward.PlanCosts | src/btc_quant_agent/risk.py:55-70 | a plan's costs and margin are these charges on its notional |
| RiskReward.PlanRisk | src/btc_quant_agent/risk.py:41-58 | what a plan risks is the distance to the stop on the position and the costs |

## Left out

- Websocket, REST and asyncio loops, the CLI, the HTTP API, systemd and disk probes: I/O plumbing.
- Order-book statistics and order-flow imbalance (`stats`, `best`, `event_ofi`): single expressions.
- A second exception while the handler removes the temporary file of a publication that did not replace its target.
- SQLite schema checks, WAL checkpoints, file attestations, the persistence format of the statistics cache, and `OperationalError` on a locked database.
- Lease.EveryRunKeeps: one partition; instances, segments and gaps are those of one partition; a recovery whose gap falls into another day is not followed there.
- Reentry of `publication_lock` by the thread that already holds it: it is a no-op in the program and one acquisition here.
- A BaseException between the field assignments of `acquire`, among those of `release`, or between the reentrant increment and its return: each group is one step.
- A thread that ends while it holds the initializer, and one that ends inside `acquire`.
- The path registry and the positive-timeout check of the initializer: one initializer per path and process is taken as given.
- Time inside one collection: a collection is one step, so a scan that outlasts its slot's due time is not modelled.
- HacVariance.HacVarianceOf: without the finite-input, rank and collinearity refusals, which are library linear algebra, and without the p-value.
- Floating-point rounding everywhere.
- `resample`, `validate_candles`, the scanner, `invalidation_reason` and the derivatives snapshot: parameters of the run.
- Descriptive fields of outcomes and diagnoses (holding minutes, regime, ATR multiples, raw-invalidation ratio): copies and single divisions.
- Outcome resolution and control matching of the forward campaign, metrics, bootstrap and Monte Carlo summaries: they add easier counters.
