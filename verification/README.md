# Cellule: ownership, publication and the audits of its measurements

This project models the parts of Cellule whose correctness rests on arguments that span several functions, and
proves those arguments with Dafny 4.11. `dafny verify dfyconfig.toml` checks every file.

**Ownership of Cells.** Any number of nodes share one object store. Each boot session advertises a lease in the node
directory and guards its own work with a process-local deadline; each Cell has one control record that only a
conditional write can replace. `CellControl` is the record with its validity rule, its ten transitions and the
builders that produce them. `NodeLease` is the local guard, a class with the source's fields. `FleetProtocol` is the
step relation: start, advertise, arm, refresh, renew, fence, drain, withdraw, claim an expired session, collect a stale
one, create, take over, open, publish, adopt, admit, release, close. Writes may be applied late or never, a reader may
act on any version it once saw, and time passes at any moment. `FleetSafety` proves what every run keeps, and
`FleetProgress` what can still be done: exactly when a Cell can be served anew, and that a release hands it over at once.

The intended law, that no two live sessions ever serve one Cell, does not hold of the code. A guard's deadline is the
present instant plus the remaining lease, and the remaining lease is computed from a wall-clock reading that was taken
earlier and rounded down to a millisecond. The guard therefore outlives the advertised expiry by exactly that delay
(`NodeLease.GuardOverhang`). `FleetOvertake.TwoLiveOwners` is a run that ends with two live owners;
`FleetOvertake.OvertakenIffOverhanging` is the exact condition, for every reachable state;
`FleetSafety.OneServerWithinLease` shows that of two sessions serving one Cell at least one has outlived its lease, and
`FleetSafety.ExclusiveWhenPrompt` that no two ever do if guards are armed without that delay. What the store
promises does hold in every run: only the owner moves a root, and no acknowledged root is lost.

**The SQL slot audit.** `SlotTrace` reads the reservations of a run and accepts exactly the traces whose slots form one
chain per shard, in whatever order the rows come. `SlotAudit` splits the wait of a slot by who held the shard; the
specification counts nanoseconds in a set, and the code searches by bisection and stops early. `TailSummary` adds these
up over the slowest queries.

**The read-window audit.** `QueryPhases` checks one query's timings, `WindowTails` keeps the slowest entries of a
stream in a heap of bounded size, `Quantiles` takes nearest-rank percentiles from a counter, `QueryStream` replays all
query evidence into windows, `QueryReports` says what the reports show of the rows' own fields, and `QueryOrder` that
the order of the rows does not matter. `ReadRecords` is the
binary layout of an arrival, `ReadWindow` replays the raw arrivals of one window, `ReadExports` checks its export
evidence, and `ReadRamp` judges the whole run.

**Measurement accounting.** `MetricDeltas` subtracts metric documents, `Histograms` decodes and subtracts histograms,
`TrendLine` and `Stability` fit a slope to publication debt, `Acknowledgements` journals every acknowledged write,
and `HttpAudit` checks recovered rows with a bounded number of concurrent tasks.

Two successive differences of a metric document need not add up to the whole one: a metric that is missing from the
middle snapshot only is lost from both. `MetricDeltas.VanishingMetric` shows it and `MetricDeltas.Compose` gives the
exact condition on the three snapshots, whatever kinds of values they hold. Histograms add up whenever the middle one
lists its buckets (`Histograms.DeltasCompose`), and it does if the last has any (`Histograms.ListedUnlessEmpty`).

**Identities and framing.** `Offers` produces the offered schedule of a load point, `WriteIds` and `LoadPoints` allocate
order ids, `WriteLedger` counts the acknowledged ones and `Framing` reassembles output lines from chunks.

`Results`, `Counters`, `Permutations` and `ByteStreams` hold what several of these share.

Sizes the programs fix by constant (Cells, rates, workers, retained entries) are parameters wherever a proof does not
need their value. Clocks, network replies, JSON parsing and hashing are parameters too. Python's floating point is
modelled by real numbers, and Python's integers by unbounded ones.

## Model

| member | source | states |
|---|---|---|
| CellControl.SoleSuccessor | crates/cellule-runtime/src/control/mod.rs:524-714 | a record passes the renew, activate or release rule exactly if the matching builder returns it |
| CellControl.SoleSuccessorFor | crates/cellule-runtime/src/control/mod.rs:524-714 | the same for takeover with a given owner and for attaching a given recovered tail |
| CellControl.SolePublication | crates/cellule-runtime/src/control/mod.rs:253-521 | the same for publish, recovery publish and migrate of a prepared root that continues the record |
| CellControl.RecordAccepted | crates/cellule-runtime/src/control/mod.rs:716-767 | exactly which records are valid: who owns one, and what its root, tail and bundle say of one another |
| CellControl.InitialAccepted | crates/cellule-runtime/src/control/mod.rs:253-278 | a first record is owned, unpublished and at the start of every counter |
| CellControl.RenewalsAccepted | crates/cellule-runtime/src/control/mod.rs:330-359 | exactly when a record can be renewed, activated or released |
| CellControl.TakeoversAccepted | crates/cellule-runtime/src/control/mod.rs:361-381 | exactly when another owner can take a record over |
| CellControl.TailsAccepted | crates/cellule-runtime/src/control/mod.rs:383-397 | exactly which recovered tails can be attached |
| CellControl.PublicationsAccepted | crates/cellule-runtime/src/control/mod.rs:399-465 | exactly which uploaded roots can be published, with or without a recovered tail |
| CellControl.MigrationsAccepted | crates/cellule-runtime/src/control/mod.rs:467-504 | exactly which migrations are accepted: one schema on, or other code within one |
| CellControl.BindingsAccepted | crates/cellule-runtime/src/control/mod.rs:524-714 | exactly which records bind a bundle or retire a Cell |
| CellControl.Counters | crates/cellule-runtime/src/control/mod.rs:524-714 | along any history the Cell and incarnation never change, and revision and progress count the versions between |
| CellControl.OneOwnerPerEpoch | crates/cellule-runtime/src/control/mod.rs:524-714 | epochs never fall, and within an epoch the owner stays until it leaves and never returns |
| CellControl.TakeoverTakes | crates/cellule-runtime/src/control/mod.rs:524-714 | a later epoch serves no sooner than two versions on, or three if a recovered tail is pinned |
| CellControl.RootsNeverRegress | crates/cellule-runtime/src/control/mod.rs:769-781 | along any history the published root never falls behind an earlier one |
| CellControl.SchemasAdvance | crates/cellule-runtime/src/control/mod.rs:783-790 | along any history the schema never falls and rises by at most one a version; new code or schema comes under the same owner, serving |
| CellControl.TailNeverDropped | crates/cellule-runtime/src/control/mod.rs:524-714 | a pinned recovery tail stays pinned until a root contains it, and no later epoch serves before that |
| CellControl.TombstoneIsFinal | crates/cellule-runtime/src/control/mod.rs:524-714 | a tombstoned record stays tombstoned with its epoch and root |
| CellControl.RenewalMeansStillOwned | crates/cellule-runtime/src/control/mod.rs:311-327 | a record accepted as the same or a pure renewal implies nobody else owned the Cell in between |
| CellControl.PureRenewalMeans | crates/cellule-runtime/src/control/mod.rs:311-327 | such a record differs in its two counters only, which moved together |
| NodeLease.NodeLeaseGuard.Create | crates/cellule-runtime/src/node/lease.rs:36-48 | a guard exists exactly for a remaining lease of 1 to 60,000 ms, armed at instant plus remaining |
| NodeLease.NodeLeaseGuard.Renew | crates/cellule-runtime/src/node/lease.rs:51-71 | the guard's new state and verdict, including fencing a lapsed guard and refusing an earlier deadline |
| NodeLease.NodeLeaseGuard.Check | crates/cellule-runtime/src/node/lease.rs:74-83 | passes exactly while live, and fences on the first failure |
| NodeLease.NodeLeaseGuard.Remaining | crates/cellule-runtime/src/node/lease.rs:87-98 | positive exactly while live, and then reaches the deadline |
| NodeLease.NodeLeaseGuard.Fence | crates/cellule-runtime/src/node/lease.rs:101-106 | fences and keeps the deadline |
| NodeLease.NodeLeaseGuard.Watch | crates/cellule-runtime/src/node/lease.rs:129-153 | fences exactly if the deadline has come |
| NodeLease.WatchdogOnlyRecords | crates/cellule-runtime/src/node/lease.rs:129-153 | the watchdog changes no later verdict, and fences exactly a guard that no longer passes |
| NodeLease.ExpiryIsTerminal | crates/cellule-runtime/src/node/lease.rs:51-153 | once a guard has lapsed no sequence of operations makes it pass again |
| NodeLease.DeadlineNeverRecedes | crates/cellule-runtime/src/node/lease.rs:51-71 | an unfenced guard's deadline only moves forward |
| NodeLease.GuardOverhang | crates/cellule-runtime/src/node/lease.rs:155-161 | the deadline passes the advertised expiry by exactly the time since the rounded reading; it stays within iff that is zero |
| NodeLease.GuardOutlivesItsLease | cookbook/support/src/node.rs:157-216 | a concrete guard that still passes at the advertised expiry |
| FleetSafety.RunKeepsInv | cookbook/support/src/node.rs:157-216 | every step of every run keeps the fleet invariant, and histories only grow |
| FleetSafety.ReachableInv | cookbook/support/src/node.rs:424-565 | the invariant holds in every reachable state |
| FleetSafety.ControlHistory | crates/cellule-runtime/src/control/authority/mod.rs:174-222 | in every reachable state each control record moved only through valid transitions |
| FleetSafety.RootsMoveOnlyUnderTheirOwner | crates/cellule-runtime/src/publication/mod.rs:989-1077 | whoever wrote a version that changed the root owned the Cell before and after, in one epoch |
| FleetSafety.AcknowledgedRootsSurvive | crates/cellule-runtime/src/publication/mod.rs:989-1077 | whatever runs next, no version once current is lost and the current root is not behind it |
| FleetSafety.RetiredMeansExpired | crates/cellule-runtime/src/node/directory/recovery.rs:98-187 | a retired session's advertised lease is over or the session had drained |
| FleetSafety.AdvertisementsAdvance | cookbook/support/src/node.rs:186-209 | a session's advertisements are numbered from one, each issued after the last for a whole lease, until its tombstone |
| FleetSafety.ClaimsDoNotOverlap | crates/cellule-runtime/src/node/directory/recovery.rs:98-187 | a tombstone's claim is replaced only after it ran out, and keeps the expiry |
| FleetSafety.LapsedForGood | crates/cellule-runtime/src/node/lease.rs:51-106 | in no run does a session whose guard lapsed ever pass again |
| FleetSafety.OwnershipPersists | crates/cellule-runtime/src/cell/actor/acquire.rs:470-557 | an owner keeps its epoch until its session is retired or it gave the epoch up |
| FleetSafety.EpochsDiffer | cookbook/support/src/node.rs:424-565 | two sessions serving one Cell hold different epochs |
| FleetSafety.SupersededIsRetired | crates/cellule-runtime/src/node/directory/recovery.rs:190-223 | some version of the directory record of the session with the older epoch is its tombstone |
| FleetSafety.OverlapOnlyPastTheLease | cookbook/support/src/node.rs:157-216 | two live sessions serve one Cell only while the older guard outlives its own advertised expiry |
| FleetSafety.OneServerWithinLease | cookbook/support/src/node.rs:424-565 | in any reachable state, of two sessions serving one Cell at least one has a guard that outlives the expiry it was armed from |
| FleetSafety.PromptGuardsStayWithinLease | cookbook/support/src/node.rs:186-216 | runs that arm guards at the millisecond they read keep every guard within its lease |
| FleetSafety.ExclusiveWhenPrompt | cookbook/support/src/node.rs:424-565 | in such runs no two live sessions ever serve one Cell |
| FleetOvertake.OvertakenMeansOverhanging | cookbook/support/src/node.rs:157-216 | only a session whose guard outlives its advertised expiry can be overtaken while live |
| FleetOvertake.OvertakenMeansHeadroom | crates/cellule-runtime/src/control/mod.rs:524-714 | and only one whose record's 64-bit counters have room for the versions a takeover needs |
| FleetOvertake.OverhangingCanBeOvertaken | cookbook/support/src/node.rs:424-565 | every such session can be: a run is constructed from any such state |
| FleetOvertake.OvertakenIffOverhanging | cookbook/support/src/node.rs:157-216 | the exact condition, for every reachable state and every held Cell: the guard overhangs and the counters have room |
| FleetOvertake.TwoLiveOwners | cookbook/support/src/node.rs:424-565 | a reachable state with two live owners of one Cell |
| FleetProgress.ServableIff | cookbook/support/src/node.rs:424-565 | in every reachable state a Cell can be served by a session yet to start if and only if it is not retired and its counters have room |
| FleetProgress.OwnedCanBeServedAnew | cookbook/support/src/node.rs:526-565 | from any owned record a run leads to a fresh session serving in the next epoch, published before or not |
| FleetProgress.IdleCanBeServedAnew | cookbook/support/src/node.rs:523-526 | from any released record a run that takes no time does the same |
| FleetProgress.NewCellCanBeServed | cookbook/support/src/node.rs:424-435 | so does one for a Cell that does not exist yet, in its first epoch |
| FleetProgress.OwnerCanWrite | crates/cellule-runtime/src/publication/mod.rs:989-1077 | every valid transition that keeps the owner can be written by an owner that has seen the current version |
| FleetProgress.OwnerCanRelease | crates/cellule-runtime/src/publication/mod.rs:1097-1158 | a published Cell without a tail can be given up, keeping its epoch and root |
| FleetProgress.HandOver | crates/cellule-runtime/src/publication/mod.rs:1097-1158 | released and acquired, a Cell changes hands in three versions while no time passes |
| FleetProgress.TailCanBePinned | crates/cellule-runtime/src/control/mod.rs:383-397 | a recovered tail that continues the current root can be pinned to it |
| FleetProgress.LiveSessionCanRenew | cookbook/support/src/node.rs:186-209 | a live session whose clock has moved can have its whole lease again |
| FleetProgress.SessionCanFence | crates/cellule-runtime/src/node/lease.rs:101-106 | a live session can stop itself at once |
| FleetProgress.TombstoneCanBeClaimed | crates/cellule-runtime/src/node/directory/recovery.rs:98-187 | a tombstone without a running claim can be claimed by any live session |
| FleetProgress.SessionCanWithdraw | cookbook/support/src/node.rs:573-598 | any session can drain and withdraw its record without waiting for its lease |
| FleetProgress.StaleCanBeCollected | crates/cellule-runtime/src/node/directory/advertisement.rs:429-480 | a record expired for longer than the retention can be collected |
| SlotTrace.RecordedDurations | crates/cellule-app/qualification/sql_slots.py:12-36 | recorded durations are whole microseconds of their spans; handoff and native parts miss the held time by at most one |
| SlotTrace.RowAccepted | crates/cellule-app/qualification/sql_slots.py:12-36 | exactly which rows are accepted, in terms of their spans and kind, and which of their fields a slot keeps |
| SlotAudit.AdmissionIsTheWait | crates/cellule-app/qualification/sql_slots.py:19-35 | the admission of every slot of an accepted trace is the whole microseconds of its wait |
| SlotTrace.CollectSlots | crates/cellule-app/qualification/sql_slots.py:39-46 | succeeds exactly if every row verifies and ids are distinct, with one slot a row |
| SlotTrace.CheckChain | crates/cellule-app/qualification/sql_slots.py:47-57 | the running table of latest ids accepts exactly the maps whose slots all name the latest lower id of their shard |
| SlotTrace.ReadSlots | crates/cellule-app/qualification/sql_slots.py:39-58 | accepts exactly the traces the order-free predicate accepts and returns their slots |
| SlotTrace.OrderGrantsNothing | crates/cellule-app/qualification/sql_slots.py:39-58 | acceptance and result are the same for every permutation of the rows |
| SlotAudit.AncestorsAreLowerIds | crates/cellule-app/qualification/sql_slots.py:47-57 | following predecessors visits exactly the lower ids of the shard, descending, to the start |
| SlotAudit.LaneIsOrdered | crates/cellule-app/qualification/sql_slots.py:78-83 | on an accepted trace each shard's reservations are disjoint and in id order |
| SlotAudit.SlotTimelines | crates/cellule-app/qualification/sql_slots.py:78-83 | one timeline a shard: its slots in id order with their release times |
| SlotAudit.BisectRight | crates/cellule-app/qualification/sql_slots.py:95 | the first position whose value exceeds the sought one |
| SlotAudit.Charge | crates/cellule-app/qualification/sql_slots.py:92-102 | bisection and early stop lose nothing: counters equal covered nanoseconds over the whole lane, in total, natively and by kind |
| SlotAudit.AdmissionBreakdown | crates/cellule-app/qualification/sql_slots.py:86-107 | every part of the result is the size of a set of instants of the wait; the source's assertion is proved |
| SlotAudit.TallyMeasures | crates/cellule-app/qualification/sql_slots.py:103-107 | 0 <= native <= reserved <= wait, kinds sum to reserved, held and unheld make up the wait |
| SlotAudit.OneShardIsOrdered | crates/cellule-app/qualification/sql_slots.py:53-57 | of two slots on a shard the lower id releases before the higher is acquired |
| SlotAudit.ReservedIsHeldTime | crates/cellule-app/qualification/sql_slots.py:86-107 | reserved time counts the instants some earlier slot of the shard held; no slot is charged with itself or a later one |
| SlotAudit.UnheldCoversAfterRelease | crates/cellule-app/qualification/sql_slots.py:53-57 | the recorded wait after the last release bounds the unheld time from below; a predecessor gone by the request means no reserved time |
| SlotAudit.FirstOnShardIsUnheld | crates/cellule-app/qualification/sql_slots.py:92-107 | a slot without predecessor waited on no recorded holder |
| TailSummary.SummarizeTail | crates/cellule-app/qualification/sql_slots.py:110-130 | every total is the sum over the tail of what it counts: phases, actor phases, states, queue waits, wait partitions and holder kinds |
| TailSummary.BoundWaits | crates/cellule-app/qualification/sql_slots.py:122-125 | adding one partition keeps the totals' equations between wait, reserved, native, other, unheld and holder kinds |
| TailSummary.TotalsOrdered | crates/cellule-app/qualification/sql_slots.py:103-125 | over any tail 0 <= native <= reserved <= waited holds of the totals |
| TailSummary.AggregateResidue | crates/cellule-app/qualification/sql_slots.py:113-119 | over q successful verified queries total time minus the seven phases lies in 0..6q microseconds |
| QueryPhases.PaddedMeansNoGap | crates/cellule-app/qualification/owner_reads.py:76-78 | the padding test accepts exactly the phase lists without a skipped phase |
| QueryPhases.QueryAccepted | crates/cellule-app/qualification/owner_reads.py:74-85 | exactly which queries pass, said of phases and totals |
| QueryPhases.ActorAccepted | crates/cellule-app/qualification/owner_reads.py:88-105 | exactly which actor phases and states pass |
| QueryPhases.ActorWithinTotal | crates/cellule-app/qualification/owner_reads.py:88-105 | however far a query got, its actor phases are gapless and fit in its total |
| QueryPhases.SuccessfulResidue | crates/cellule-app/qualification/owner_reads.py:74-105 | a successful query's seven phases miss its total by 0 to 6 microseconds |
| WindowTails.PopLeast | crates/cellule-app/qualification/owner_reads.py:148-149 | removes the least entry and nothing else |
| WindowTails.Retain | crates/cellule-app/qualification/owner_reads.py:146-149 | after each push the heap holds the min(n, K) greatest entries of the stream |
| WindowTails.TailIsUnique | crates/cellule-app/qualification/owner_reads.py:146-149 | which entries are retained does not depend on the heap's arrangement |
| WindowTails.TailKeepsTheSlowest | crates/cellule-app/qualification/owner_reads.py:146-149 | no dropped entry exceeds a kept one, and exactly the surplus is dropped |
| Quantiles.CounterDistribution | crates/cellule-app/qualification/owner_reads.py:108-119 | gives the percentiles, in milliseconds, of every list the counter tallies, without sorting it |
| Quantiles.Settle | crates/cellule-app/qualification/owner_reads.py:116-118 | a percentile is set at the first key whose running count reaches its rank |
| Quantiles.NearestRank | crates/cellule-app/qualification/entities.py:41-48 | a reported percentile is a thousandth of one of the values, which at least p percent do not exceed and fewer than p percent undercut |
| Quantiles.WithinMeansMost | crates/cellule-app/qualification/entities.py:41-48 | a percentile is within a limit exactly if at least p percent of the values are |
| Quantiles.PercentilesAscend | crates/cellule-app/qualification/entities.py:41-48 | all four percentiles are present and in order |
| Quantiles.RankIsPercentile | crates/cellule-app/qualification/follower.py:89-91 | the element of the sorted list at the rank rounded up has at least p percent of the values at most it and fewer than p percent below it |
| Quantiles.TalliedAlike | crates/cellule-app/qualification/owner_reads.py:108-119 | two lists with the same tally have the same percentiles, so a counter determines them |
| QueryStream.EachWaitOnce | crates/cellule-app/qualification/owner_reads.py:157-158 | a verified query's Cell wait is counted under exactly one enqueue state |
| QueryStream.ReadQueries | crates/cellule-app/qualification/owner_reads.py:133-158 | accepts exactly the streams whose rows all verify and bind and reuse no slot; each window accounts for its own rows |
| QueryStream.OneWindow | crates/cellule-app/qualification/owner_reads.py:139-142 | with separated windows a query is charged to a window exactly if it fell within it |
| QueryStream.Observe | crates/cellule-app/qualification/owner_reads.py:143-158 | counts, enqueue states, tail and the counters of phases, actor phases and Cell waits keep accounting for the window's rows |
| QueryStream.VerifyQueries | crates/cellule-app/qualification/owner_reads.py:122-170 | accepts exactly the evidence the declarative predicate accepts; reports give enqueue states, percentiles of every phase and Cell wait, and slot totals of each window |
| QueryReports.EvidenceMeans | crates/cellule-app/qualification/owner_reads.py:133-163 | the evidence is accepted exactly if every query is of a seeded Cell, adds up and has its place in the trace, no slot is used twice, and each window is as its client counted |
| QueryReports.ReportedColumns | crates/cellule-app/qualification/owner_reads.py:150-169 | each reported distribution is of one field of the window's rows: the five phases, the total, the three actor phases, and the Cell wait by state |
| QueryReports.ReportedStates | crates/cellule-app/qualification/owner_reads.py:153 | verified rows are counted by the state they were enqueued in, and those never enqueued apart |
| QueryReports.RetainedRow | crates/cellule-app/qualification/owner_reads.py:146-149 | a retained entry is a row of the window, with its own total, place, slot, phases and state |
| QueryReports.BoundToARow | crates/cellule-app/qualification/sql_slots.py:61-75 | a query binds exactly if it failed without a slot, or some row of the trace is of its kind and shard, ran if it succeeded, and waited no longer than it did |
| QueryOrder.OrderIsIrrelevant | crates/cellule-app/qualification/owner_reads.py:122-163 | the verdict is the same for every permutation of the slot rows and of the query rows |
| QueryOrder.ReportsAreSame | crates/cellule-app/qualification/owner_reads.py:133-170 | two readings in different orders report the same counts, enqueue states and percentiles of every column |
| ReadRecords.DecodeEncode | crates/cellule-app/qualification/owner_reads.py:21 | reading back a written record gives the arrival |
| ReadRecords.EncodeDecode | crates/cellule-app/qualification/owner_reads.py:21 | every 104 bytes are the record of exactly one arrival, whose counters fit in 64 bits |
| ReadRecords.FileRoundTrip | crates/cellule-app/qualification/owner_reads.py:190-191 | a file of records gives back every arrival, in order, and nothing else |
| ReadRecords.FileIsItsArrivals | crates/cellule-app/qualification/owner_reads.py:190-191 | a file of whole records is the one that holds the arrivals read from it |
| ReadRecords.HexIsInjective | crates/cellule-app/qualification/owner_reads.py:39 | the text of a digest determines it |
| ReadWindow.SuccessesAgree | crates/cellule-app/qualification/owner_reads.py:38-39 | two successes on one Cell show the same value, at the seed's sequence |
| ReadWindow.AttemptAccepted | crates/cellule-app/qualification/owner_reads.py:31-44 | exactly which attempts are accepted, and their three delays |
| ReadWindow.SampleAccepted | crates/cellule-app/qualification/owner_reads.py:174-184 | the checks of the recorded sample accept exactly windows that ran as planned within their resources |
| ReadWindow.AttemptTimes | crates/cellule-app/qualification/owner_reads.py:31-44 | an accepted attempt follows the schedule, its waits fit in its latency, and only a success shows a value |
| ReadWindow.ReadErrors | crates/cellule-app/qualification/owner_reads.py:185-186 | accepts exactly distinct arrivals with nonempty errors |
| ReadWindow.Replay | crates/cellule-app/qualification/owner_reads.py:187-204 | consuming the error map accepts exactly the arrivals that verify, never step back in time and match their errors |
| ReadWindow.VerifyWindow | crates/cellule-app/qualification/owner_reads.py:173-213 | accepts exactly the whole files whose decoded arrivals the declarative predicate accepts, with totals and percentiles of all of them |
| ReadWindow.ServedInTime | crates/cellule-app/qualification/owner_reads.py:47-49 | a window is served exactly if every arrival succeeded, at least 99 percent ended within 50 ms and were generated within 5 ms of schedule, it ended in time and no export failed |
| ReadWindow.CellShare | crates/cellule-app/qualification/owner_reads.py:33 | each Cell is read the whole rounds, and the first few once more |
| ReadWindow.AcceptedWindow | crates/cellule-app/qualification/owner_reads.py:185-208 | errors are exactly the failed arrivals, outcomes sum to the plan, Cells differ by at most one, served means all succeeded |
| ReadExports.VerifyExports | crates/cellule-app/qualification/owner_reads.py:52-66 | the filters and the sorted set accept exactly rows that are periodic, in rising order and within the requests, but for one terminal row at the end |
| ReadRamp.SeedsAccepted | crates/cellule-app/qualification/owner_reads.py:24-28 | the checks of the seeds accept exactly one kilobyte a Cell, at the sequence it had reached |
| ReadRamp.RampAccepted | crates/cellule-app/qualification/owner_reads.py:223-225 | the list of ids, phases and rates is the planned one exactly if every window is as planned |
| ReadExports.UnansweredAreFailed | crates/cellule-app/qualification/owner_reads.py:55-61 | the requests no row answers are exactly as many as were recorded as failed |
| ReadRamp.VerifyOwnerReads | crates/cellule-app/qualification/owner_reads.py:216-242 | accepts exactly the planned ramps whose seeds, windows, exports and queries verify and that stopped where they should; reports the greatest rate served, the arrivals, and every window's queries and exports |
| ReadRamp.WindowExports | crates/cellule-app/qualification/owner_reads.py:52-59 | each window of an accepted run accounts for its requests, at most one a second, and has a row for each accepted one and one more |
| ReadRamp.ExportsAccounted | crates/cellule-app/qualification/owner_reads.py:227-233 | the export rows of an accepted run are one for each accepted request of its windows, and one a window |
| ReadRamp.HighestIsTheBoundary | crates/cellule-app/qualification/owner_reads.py:206-241 | by their own arrivals every rate up to the reported one was measured and served, and the next was measured and was not |
| ReadRamp.QueriesFallInOneWindow | crates/cellule-app/qualification/owner_reads.py:234 | a query of an accepted run counts in the one window it fell in |
| MetricDeltas.DifferenceIsMonotone | scripts/perf/report.py:59-69 | a successful difference holds counts at every depth and none of them is negative |
| MetricDeltas.ObjectAfterOther | scripts/perf/report.py:60-61 | exactly when an object can follow a list, a text or another value, and that nothing is counted then |
| MetricDeltas.ListAfterOther | scripts/perf/report.py:62-65 | exactly when a list can follow a value of another kind |
| MetricDeltas.OccursMeans | scripts/perf/report.py:61 | a name occurs in a text exactly if the text is something, the name, and something |
| MetricDeltas.Compose | scripts/perf/report.py:59-69 | for documents of any kinds two successful differences add up to the whole one if and only if the middle has the kind of the last and no counted field is missing from it |
| MetricDeltas.VanishingMetric | scripts/perf/report.py:60-61 | a concrete metric lost from both differences but not from the whole |
| Histograms.DecodeSparse | scripts/perf/report.py:94-107 | accepts exactly rising in-range indices with positive counts, and yields each bucket's count |
| Histograms.RoundTrip | scripts/perf/report.py:94-107 | recording the nonzero buckets and decoding gives the buckets back |
| Histograms.Canonical | scripts/perf/report.py:94-107 | each dense array has only one accepted sparse form |
| Histograms.HistogramDelta | scripts/perf/report.py:109-114 | computes the difference of two snapshots in either form |
| Histograms.DeltaMeans | scripts/perf/report.py:109-114 | succeeds exactly if resolution and length agree and nothing shrank, and is each bucket's growth |
| Histograms.DeltasCompose | scripts/perf/report.py:109-114 | given deltas a to b and b to c, a to c succeeds and is their bucketwise sum exactly if b's buckets are a list |
| Histograms.ListedUnlessEmpty | scripts/perf/report.py:62-64 | a difference into nonempty buckets was taken from a list |
| Histograms.FormIsIrrelevant | scripts/perf/report.py:94-114 | the form a snapshot was recorded in does not change any difference |
| TrendLine.ShiftInvariant | scripts/perf/report.py:222-225 | adding a constant to the series leaves the slope unchanged |
| TrendLine.GrowthShows | scripts/perf/report.py:222-225 | a series that never falls has no negative slope, and a positive one if it rises at all, for any number of samples |
| TrendLine.DeclineShows | scripts/perf/report.py:222-225 | a series that never rises has no positive slope |
| TrendLine.LeastSquares | scripts/perf/report.py:222-225 | no line has a smaller squared error than the fitted one, and only its slope attains it |
| Stability.ObservesMeans | scripts/perf/report.py:197-208 | the last four points are used exactly if every point is there and each of them has one owner |
| Stability.AvailableMeans | scripts/perf/report.py:195-215 | a report exists exactly if those four are of one process, a minute apart within ten seconds, with their progress |
| Stability.PassMeans | scripts/perf/report.py:226-236 | it passes exactly if the four frontiers are sound and neither slope is positive |
| Stability.GrowthNeverPasses | scripts/perf/report.py:195-236 | debt or age that only grew over the last four points never passes |
| Stability.DeclineAlwaysPasses | scripts/perf/report.py:195-236 | sound, comparable observations whose debt and age never rise always pass |
| Stability.ReportedSlopesAreBest | scripts/perf/report.py:222-225 | each of the four reported slopes is that of the line that fits its own quantity best, per second |
| Acknowledgements.Journal.Append | scripts/perf/observations.py:31-43 | writes an acknowledgement once, or refuses a malformed or repeated one and changes nothing |
| Acknowledgements.Journal.AppendFile | scripts/perf/observations.py:48-54 | succeeds exactly if the file's acknowledgements are sound and new, and appends them in order |
| Acknowledgements.Journal.AppendGroup | scripts/perf/observations.py:45-58 | the same for a phase, whose count must be what its counters promise |
| Acknowledgements.Collect | scripts/perf/observations.py:10-64 | succeeds exactly if every acknowledgement is sound, every id occurs once and every phase counts; returns the journal |
| Acknowledgements.JournalHolds | scripts/perf/observations.py:43-54 | an acknowledgement is journalled exactly if it is the contract's or some line without an error shows it |
| Acknowledgements.NonePassedOver | scripts/perf/observations.py:34-54 | a written journal passed over no line with a response and a request |
| Acknowledgements.ExpectedAcknowledgements | scripts/perf/report.py:44-57 | consistent counters sum to the seeds, the contract mutation, every timed write phase, and overload and recovery if they ran |
| Acknowledgements.JournalMeetsReport | scripts/perf/run.py:486-517 | with one directory a recorded phase the journal has distinct ids and exactly the expected length |
| HttpAudit.LinesPartition | scripts/perf/http_audit.rs:44-58 | the lines are the stream cut after each newline |
| HttpAudit.Reader.ReadUntilNewline | scripts/perf/http_audit.rs:46 | takes the rest of the line, bounded |
| HttpAudit.Reader.ReadObservation | scripts/perf/http_audit.rs:44-58 | the next line's record, the end of the stream, or a refusal of an oversize or malformed line |
| HttpAudit.RecordsAreLines | scripts/perf/http_audit.rs:83-91 | no line is skipped: reading stops at the first line that is no record |
| HttpAudit.ReadAll | scripts/perf/http_audit.rs:83-91 | hands on the records before the first bad line, and succeeds exactly if there is none |
| HttpAudit.Totals.Merge | scripts/perf/http_audit.rs:60-73 | adds the counts and keeps at most four errors |
| HttpAudit.Receive | scripts/perf/http_audit.rs:99-106 | never more than 128 tasks in flight, and every record in flight or joined |
| HttpAudit.CheckAll | scripts/perf/http_audit.rs:97-169 | for every completion order checked is the number of records and retries plus errors, and min(4, errors) errors are kept |
| HttpAudit.OrderIsInvisible | scripts/perf/http_audit.rs:97-169 | counts depend on the outcomes alone |
| HttpAudit.ChangedAreMoves | scripts/perf/http_audit.rs:119-154 | exactly the recovered writes that show another incarnation are counted as changed, and without a cold restart there are none |
| HttpAudit.KeptNamesALoss | scripts/perf/http_audit.rs:119-161 | a kept difference names the order of a write that was not recovered |
| HttpAudit.Audit | scripts/perf/http_audit.rs:75-181 | passes exactly if the stream is nonempty and whole and every write is recovered: its row shows it no earlier than acknowledged, and its retry repeats the receipt |
| WriteIds.RunKeepsInv | scripts/bench-axum-rustfs.py:127-151 | every interleaving of workers keeps each id in its worker's progression |
| WriteIds.IdsAreFresh | scripts/bench-axum-rustfs.py:118-167 | in every run issued ids are distinct, at least the first, and at most 100,000 |
| WriteIds.LedgerCanBeUsed | scripts/bench-axum-rustfs.py:118-151 | some run issues every id from the first on, without a gap, up to the workers' whole shares |
| WriteIds.PhasesAreApart | scripts/bench-axum-rustfs.py:347-358 | every measured id exceeds every warm-up id, and all are distinct |
| Offers.InsideWindow | crates/cellule-axum/examples/capacity/arrivals/mod.rs:25-36 | an offer is due before some second exactly if its index is below rate times seconds |
| Offers.Produce | crates/cellule-axum/examples/capacity/arrivals/mod.rs:16-63 | both schedules are offered, each index once, merged by due time, completely unless the queue closes; counters match the offers and the full queues they met |
| Offers.OffersConserved | crates/cellule-axum/examples/capacity/arrivals/mod.rs:41-59 | every measured offer was taken, met a full queue, or met the closed one |
| Offers.NoneUnissued | crates/cellule-axum/examples/capacity/metrics.rs:120 | with the queue open, exactly rate times seconds offers are measured: none go unissued |
| Offers.NeverOverIssued | crates/cellule-axum/examples/capacity/metrics.rs:120 | never more than that, so the saturating difference is exact |
| LoadPoints.Execute | scripts/perf/three-node.py:339-367 | offsets are multiples of the Cell count, no point's ids run into another's, and less than a round is left between points |
| LoadPoints.PlanIsTheSchedule | scripts/perf/three-node.py:350-366 | a point's plan is exactly the write indexes its schedule offers |
| LoadPoints.IdsAreDisjoint | scripts/perf/three-node.py:339-367 | seeds, all points and recovery never share an id |
| LoadPoints.RoutingAgrees | scripts/perf/three-node-control.py:22-31 | the driver's shard and the control tool's routing agree on every id |
| LoadPoints.EachCellOnce | scripts/perf/three-node-control.py:77-98 | recovery writes each Cell exactly once |
| LoadPoints.NodesGetTheirShare | scripts/perf/three-node.py:87 | each node receives exactly its number of Cells |
| WriteLedger.Tally | crates/cellule-axum/examples/capacity/mod.rs:373-389 | a point counts its measured successes, and its warm-up writes with their errors; together they promise exactly its acknowledged writes |
| WriteLedger.ExpectedWrites | scripts/perf/three-node.py:339-383 | the expected count is the seeds, every acknowledged write of every point, and a write a Cell after a disaster |
| WriteLedger.AuditMeetsExpectation | scripts/perf/three-node-control.py:64-123 | the audit reads exactly as many records as expected, and no id twice |
| WriteLedger.ExpectedWithinPlan | scripts/perf/three-node.py:340-367 | the points' share of the expected count is at most what they planned, and all of it exactly if every planned write was acknowledged |
| Framing.TakeLines | cookbook/scenarios/process.py:29-35 | takes lines off the buffer up to the event that completes the evidence, and leaves the rest |
| Framing.Until | cookbook/scenarios/process.py:20-43 | equals the scan of the whole output, reading no chunk after the one that completed it |
| Framing.ScanEvents | cookbook/scenarios/process.py:29-35 | the events are the lines in order, complete at the last and at no earlier one |
| Framing.ChunkingIsInvisible | cookbook/scenarios/process.py:20-43 | how the output was cut and when draining began does not show in the result |
| Framing.EveryLineOnce | cookbook/scenarios/process.py:38-43 | when the part read before completion has no carriage returns, success returns every nonblank line once, in order |
| Framing.SuccessMeans | cookbook/scenarios/process.py:24-43 | on such output observing succeeds exactly if the process ends well, its lines come to complete evidence in time, and every one parses |
| Framing.PiecesDivide | cookbook/scenarios/process.py:41 | the pieces are the output, kept apart by line breaks and nothing else |

## Left out

- open_cell_after_rollout and the migration checks it adds before a Cell is opened (cookbook/support/src/node.rs).
- Node-log replication, bundle recovery and LTX contents: a recovered tail and a root are opaque values here.
- Signatures, record encoding and the byte length of endpoints; a directory record is its decoded value.
- Error cleanup of node start-up and of failed activations beyond closing the actor and releasing the record.
- Text parsing of trace rows and of the query, window and error tables; rows are typed values.
- The hashes of the raw files in the read audit's report, and its rate and CPU ratios.
- Stability: the order of the minute files is the order they are given in; the glob and sort are left out.
- The write-rate and latency verdicts, cost_report and fleet_mode_report of scripts/perf/report.py, which add only
  comparisons of recorded fields.
- HttpAudit.Audit: the server's replies are a parameter; reading and checking overlap in the source and follow one
  another here, and no task panics.
- Offers.Produce: products are unbounded; the source multiplies an index by a billion in 64 bits.
- The seeding, reading and auditing requests of scripts/bench-axum-rustfs.py and scripts/perf/three-node-control.py.
- Framing.Until: the deadline and the end of the process both appear as the end of the chunks that arrived in time.
