# DMARCwatch: verified model

DMARCwatch ingests DMARC aggregate reports (appendix C of RFC 7489), keeps them in a
report store, periodically summarises each watched domain, turns the summary into
findings, reconciles those findings with what it already knows, and notifies people of
what opened and what was resolved. This project models that pipeline in Dafny and proves
what it is meant to guarantee, for every input, every run and every interleaving.

`dafny verify dfyconfig.toml` checks everything.

| part | modules | main results |
|---|---|---|
| reports and their two stores | `Reports`, `Overviews`, `ReportMemStore`, `ReportSqlStore`, `ReportAgreement`, `OverviewAgreement`, `OverviewMirror`, `Accounting` | exactly which runs keep the map store and the two-table store together, and exactly when their overviews agree; messages are conserved; pruning leaves both windows alone |
| decisions | `Findings`, `Collector`, `Decisions`, `SqlCollector`, `PrunedFindings`, `SqlPrune` | for each of the six checks exactly when it is reported, what every finding satisfies, what findings imply about each other and about the traffic, and exactly when pruning changes them, over either store |
| uploads | `Upload`, `SqlUpload` | every report is accounted for, repeating an upload does nothing, over either store |
| finding lifecycle | `FindingStores`, `Reconcile`, `Lifecycle`, `FindingRuns`, `Sightings`, `FindingAgreement`, `CollectedRuns` | notifications alternate, streaks count absences, every field of a record told from the scans that saw it and the edits made to it, identities are fixed, exactly which runs leave the SQL table with the map's records, the dashboard mirrors the collector |
| notifications | `Digests`, `Notify`, `Dispatcher`, `Delivery` | no accepted event is lost or doubled in any interleaving, and batches keep their order; Close drains; exactly when the last thing a reader hears agrees with the record |
| scheduling | `Backoff`, `Scheduler`, `SchedulerRuns` | worker bound, final stop, sweeps that cover their targets, exactly when a target is backed off, in any interleaving |
| kernels | `Ulid`, `Evidence`, `EvidenceContents` | identifiers sort like time and decode back; sanitised evidence is bounded, independent of secrets, free of instructions, and unchanged when harmless |
| shared | `Base`, `Sums`, `Text`, `Sorting` | finite sums over sets, string order, sorting |

Instants are integers counting nanoseconds from the Unix epoch; `Unix()` is the floor to
seconds. Integers are unbounded except where width matters: the ULID words and clock, and
the back-off delay, which wraps at 64 bits. Percentages are exact reals.

Objects that the program updates in place are classes (`ReportMemStore.MemStore`,
`ReportSqlStore.SqlStore`, `FindingStores.MemStore`, `FindingStores.SqlStore`,
`Dispatcher.Dispatcher`); each method is tied to a function of the old state, and the laws
are proved about those functions. The scheduler is a machine of atomic steps.

Where code and documentation part:

- The in-memory report store is documented as mirroring the SQL store exactly. Contents and
  answers stay equal along a run if and only if no report is put whose joined key is taken
  by another organisation, id and domain (a bar in a name can do that) and no prune has a
  stored report between the start of its horizon's second and the horizon
  (`ReportAgreement.RunsMirror`; inputs: `ReportAgreement.BarsPartAnswers`,
  `ReportAgreement.SubSecondPrune`). The overviews are then equal if and only if no report of
  the domain ends in the second a window opens in before it opens, none in the month passes
  only by a "pass" spelt with a long s, which Go's case folding accepts and SQL does not, and
  neither the domain nor one of its sources has all its reports before Go's zero time, where
  the fold's maxima start (`OverviewMirror.OverviewsMirror`; inputs:
  `OverviewMirror.SubSecondSkew`, `OverviewMirror.AncientSkew`,
  `Reports.LongSPassIsNotExact`).
- The status endpoint accepts an edit of a resolved finding, which the dashboard never
  offers; after one, two "resolved" notifications can follow each other
  (`Lifecycle.ReopenedByHand`). `Lifecycle.InStepExactly` shows that this is the only way.
- A batch drops a repeated notice (`Delivery.ReopeningLost`), and its digest lists what was
  resolved after what was opened, whatever the order was (`Delivery.DigestsForgetOrder`). So a
  finding that is resolved and opened again within one batch is last heard of as resolved
  (`Delivery.ReopeningUnheard`). `Delivery.ReaderInForm` says exactly when the last thing
  heard agrees with the record.
- Target validation accepts a bar, and unparseable source addresses are kept, so findings of
  two domains can share a fingerprint (`CollectedRuns.BarsShare`). `CollectedRuns.PrintsShared`
  says for exactly which domains; runs over other targets are covered. Where it happens the
  two finding stores part (`FindingAgreement.StoresAgree`): the map store hands the record to
  the target scanned last (`CollectedRuns.SharedRecordMoves`), while the SQL table leaves it
  with the first, and every scan of the other announces it as newly open again
  (`FindingAgreement.SharedRowStays`).
- Over the SQL store windows open at the start of a second, so an alignment drop and a silence
  can be reported together although the newest report did not end exactly seven days ago
  (`SqlCollector.SqlDropAndSilence`); it then ended at the start of that second
  (`SqlCollector.SqlLaws`).
- Stop is documented as waiting for in-flight scans. It waits for the loops and for their
  scans (`Scheduler.StopIsFinal`), but a scan for a target added just before may start after
  Stop has returned (`Scheduler.AddOutlivesStop`), and a scan of an on-demand sweep, which
  every upload starts, is not waited for at all (`Scheduler.NowOutlivesStop`).
  `Scheduler.StopCovers` shows that there is nothing else.
- A worker slot is held through reconciling, not only through the Collect call it is
  documented to bound (`Scheduler.CollectsBounded`, `Scheduler.ReconcilingHoldsSlot`).

## Model

| member | source | states |
|---|---|---|
| `Reports.ParseXML` | dmarcrep/dmarcrep.go:154-213 | a decoded report is accepted exactly when it has an organisation or an id, a domain, a row, and a row with a source; an accepted report has every field trimmed and lower-cased as written, and is well formed: lower-cased results, counts of at least one, whole-second dates, no empty source; a refusal names its reason |
| `Reports.ParseRecords` | dmarcrep/dmarcrep.go:186-208 | the row loop keeps exactly the normalised rows with a source, in document order |
| `Reports.AlignmentAgrees` | dmarcrep/dmarcrep.go:57-63 | on lower-cased results the case-folded pass rule and the exact SQL comparison differ precisely on a long-s spelling of "pass" |
| `Reports.LongSPassIsNotExact` | dmarcrep/dmarcrep.go:57-59 | such a spelling passes the folded rule and fails the exact one |
| `Reports.KeyIdentifies` | dmarcrep/dmarcrep.go:65-67 | with no bar in organisation and domain, equal joined keys mean equal organisation, report id and domain |
| `Reports.KeyCollides` | dmarcrep/dmarcrep.go:65-67 | with a bar, two different reports can share the joined key |
| `Reports.NormalFields` | dmarcrep/dmarcrep.go:187-204 | which part of a decoded row feeds which field, trimmed and lower-cased, with counts below one raised to one |
| `Text.Trimmed` | dmarcrep/dmarcrep.go:163-181 | trimming takes white space off both ends and nothing else |
| `Text.LowerLetters` | dmarcrep/dmarcrep.go:163-181 | each capital becomes its small letter, the Kelvin sign k and the dotted I i, and nothing else changes |
| `Overviews.OverviewDetermined` | dmarcwatch/memstore.go:33-101 | any two overviews of the same reports have equal figures, whatever order they were computed in, and equal policy when one report ends last |
| `ReportMemStore.MemStore.PutReport` | dmarcwatch/memstore.go:22-30 | stores a report under its key unless the key is taken, and says which |
| `ReportMemStore.MemStore.Prune` | dmarcwatch/memstore.go:104-113 | exactly the reports ending before the horizon go |
| `ReportMemStore.MemStore.Overview` | dmarcwatch/memstore.go:33-101 | the fold over the map, in whatever order, returns an overview meeting the declarative definition: window totals, organisations, first and last dates, policy of a latest report, and each active source once with its own totals |
| `ReportMemStore.CountRecords` | dmarcwatch/memstore.go:68-92 | the inner loop adds a report's volume to the window totals and to each of its sources, and nothing else |
| `ReportMemStore.Visit` | dmarcwatch/memstore.go:46-96 | visiting one more report turns accumulators of a set of reports into those of the set with it |
| `ReportSqlStore.SqlStore.PutReport` | dmarcwatch/sqlite.go:52-80 | insert-or-ignore on the three-column key, then one row per record, in order |
| `ReportSqlStore.RowsRestore` | dmarcwatch/sqlite.go:59-77 | reading the rows of a report back gives the report, but for the fields that have no column |
| `ReportSqlStore.SqlStore.Prune` | dmarcwatch/sqlite.go:156-163 | both tables lose exactly the rows ending before the truncated horizon |
| `ReportSqlStore.SqlStore.Overview` | dmarcwatch/sqlite.go:83-153 | the queries return the aggregates, the distinct count, the policy of some latest report, and each joined source group once, by volume |
| `ReportAgreement.PutAnswersDiffer` | dmarcwatch/memstore.go:22-30 | for the same contents the two stores answer a put differently exactly when some stored report has the same joined key and another triple |
| `ReportAgreement.PruneKeepsTwins` | dmarcwatch/sqlite.go:156-163 | a prune leaves equal contents equal exactly when no stored report ends between the start of the horizon's second and the horizon |
| `ReportAgreement.SubSecondPrune` | dmarcwatch/memstore.go:104-113 | half a second past a report's end, one store drops it and the other keeps it |
| `ReportAgreement.RunsMirror` | dmarcwatch/sqlite.go:52-80 | along any run of puts and prunes both stores hold the same reports and give the same answers if and only if no put collides and no prune is straddled |
| `ReportAgreement.TameRunsAreGuarded` | dmarcrep/dmarcrep.go:65-67 | names without bars and whole-second horizons meet that condition |
| `ReportAgreement.BarsPartAnswers` | dmarcwatch/memstore.go:22-30 | two reports under one joined key: the map store answers duplicate, the table stores the second |
| `OverviewAgreement.LogSum` | dmarcwatch/sqlite.go:111-124 | SUM over the row table equals the sum over stored reports, for every filter |
| `OverviewAgreement.AnswerSummarises` | dmarcwatch/sqlite.go:83-153 | what the queries return meets the same declarative definition of an overview, with the windows opening at the start of their second and instants before the zero time raised to it; as returned its instants are true maxima |
| `OverviewMirror.MisspeltSkews` | dmarcwatch/sqlite.go:111-116 | one long-s pass in the window makes the SQL aligned total strictly smaller |
| `OverviewMirror.OverviewsMirror` | dmarcwatch/memstore.go:10-12 | after every run that keeps the contents together the two overviews have equal figures if and only if no report of the domain is on the edge of a window, none in the month passes only by a long s, and no maximum lies before the zero time; the policies then agree exactly unless the newest report ended at the zero time, given one policy among the newest |
| `OverviewMirror.OrdinaryAgree` | dmarcwatch/memstore.go:10-12 | on whole seconds, with plain spellings and reports from after the zero time, these conditions hold |
| `OverviewMirror.SubSecondSkew` | dmarcwatch/sqlite.go:85-86 | half a second is enough: one store counts a report in the month that the other leaves out |
| `OverviewMirror.AncientSkew` | dmarcwatch/memstore.go:53-56 | a report ending at or before the zero time has a last end and a policy in one store and not in the other |
| `Accounting.OutcomesAddUp` | dmarcwatch/memstore.go:84-89 | aligned plus failing messages are all messages, for every window and every set of sources |
| `Accounting.WindowsNest` | dmarcwatch/memstore.go:76-81 | a later window never counts more |
| `Accounting.SourcesAddUp` | dmarcwatch/memstore.go:97-101 | the per-source figures sum to the figure of the window |
| `Accounting.MessagesConserved` | dmarcwatch/memstore.go:59-99 | of any overview: sources' messages and aligned messages sum to the month's, each source's messages are aligned or failing, and the week's aligned and unaligned counts are at most the month's |
| `Accounting.PruneInvisible` | dmarcwatch/dmarcwatch.go:120-127 | pruning before the month opens changes no total, organisation count or source counter; last end and policy stay if a report of the domain survives; first dates never move earlier |
| `PrunedFindings.PruneAlters` | dmarcwatch/dmarcwatch.go:120-252 | wherever the windows open, the prune changes the findings of a domain exactly when it empties the domain, takes the history from under a new-source finding, or makes a busy old source look new |
| `PrunedFindings.EmptiedInput` | dmarcwatch/dmarcwatch.go:120-143 | a domain whose only report goes turns from silence to no data |
| `PrunedFindings.LostHistoryInput` | dmarcwatch/dmarcwatch.go:171-187 | an old report goes and a new-source finding with it |
| `PrunedFindings.ForgottenInput` | dmarcwatch/dmarcwatch.go:171-187 | the one early report of a source goes and it is reported as new |
| `SqlPrune.SqlPruneAlters` | dmarcwatch/sqlite.go:156-163 | the same condition over the SQL store, whose horizon and windows are truncated to the second, at any clock |
| `Collector.FindingsWellFormed` | dmarcwatch/dmarcwatch.go:120-252 | every finding passes ingest validation, names the scanned domain, and has a fingerprint of its own |
| `Decisions.NoDataExactly` | dmarcwatch/dmarcwatch.go:133-143 | no-data, informational, is reported exactly when there is no report, and then alone |
| `Decisions.SpoofingExactly` | dmarcwatch/dmarcwatch.go:147-168 | spoofing, high, is reported for an address exactly when a source of it has at least 10 messages failing both, and 9 in 10 |
| `Decisions.NewSourceExactly` | dmarcwatch/dmarcwatch.go:170-187 | new-source, medium, is reported for an address exactly when there are 14 days of history and it first appeared within 7 days, with 5 messages and some aligned |
| `Decisions.PolicyExactly` | dmarcwatch/dmarcwatch.go:189-219 | the policy finding is reported exactly for none or no policy, low, and for quarantine, informational, with 100 messages, 2 organisations and 98 in 100 aligned |
| `Decisions.DropExactly` | dmarcwatch/dmarcwatch.go:221-235 | the drop, medium, is reported exactly when the week has 50 messages, fewer than the month, and an aligned rate ten points lower, cross-multiplied |
| `Decisions.NoReportsExactly` | dmarcwatch/dmarcwatch.go:237-249 | silence, medium, is reported exactly when the newest report ended at least 7 days ago |
| `Decisions.OnlyTheSix` | dmarcwatch/dmarcwatch.go:120-252 | no other finding is reported |
| `Collector.SpoofingBounded` | dmarcwatch/dmarcwatch.go:147-169 | ten times the spoofing findings is at most the unaligned month; when ready, five hundred times is at most the month |
| `Collector.ReadyDespiteDrop` | dmarcwatch/dmarcwatch.go:190-235 | readiness together with a drop forces a month of at least five times the week |
| `Collector.DropMeansOlderBetter` | dmarcwatch/dmarcwatch.go:222-235 | a drop means the part of the month before the week is aligned strictly above the month |
| `Collector.DropAndSilence` | dmarcwatch/dmarcwatch.go:222-249 | a drop and a silence can both be reported only when the newest report ended between the opening of the recent window and seven days ago, wherever that window opens |
| `SqlCollector.SqlRunIs` | dmarcwatch/sqlite.go:52-163 | whatever is put and pruned, the two tables are those of one log with one report per key |
| `SqlCollector.SqlLaws` | dmarcwatch/dmarcwatch.go:145-252 | the spoofing bounds, readiness despite a drop, the meaning of a drop, and drop with silence (the newest report ended at the start of the second seven days ago), for the answer of the queries at any clock |
| `SqlCollector.SqlDropAndSilence` | dmarcwatch/sqlite.go:83-86 | two reports and a clock at half a second for which drop and silence coexist although the newest did not end exactly seven days ago |
| `SqlCollector.Collect` | dmarcwatch/dmarcwatch.go:120-252 | over the SQL store: prunes at the truncated horizon, queries, and returns exactly the findings of the answer, or nothing when cancelled |
| `Collector.Collect` | dmarcwatch/dmarcwatch.go:120-252 | prunes at the horizon, summarises what is left, and returns exactly the findings of that summary, or nothing when cancelled |
| `Collector.Decide` | dmarcwatch/dmarcwatch.go:146-252 | the loops produce the findings of the overview in order |
| `Upload.EveryReportCounted` | dmarcwatch/console.go:90-106 | parsed reports are ingested, duplicate or skipped, each once |
| `Upload.OnlyGrows` | dmarcwatch/console.go:95-113 | the store keeps all it had and grows by as many reports as were ingested; the touched domains are exactly those with a new report |
| `Upload.RepeatIsIdle` | dmarcwatch/console.go:62-118 | the same upload again ingests nothing, touches nothing and leaves the store as it is |
| `SqlUpload.SqlEveryReportCounted` | dmarcwatch/console.go:90-106 | over the SQL store, parsed reports are ingested, duplicate or skipped, each once |
| `SqlUpload.SqlOnlyGrows` | dmarcwatch/console.go:95-113 | both tables keep their rows, one header row per ingested report is added, and the touched domains are those of the new rows |
| `SqlUpload.SqlRepeatIsIdle` | dmarcwatch/console.go:62-118 | the same upload again ingests nothing, touches nothing and leaves the tables as they are |
| `SqlUpload.HandleUpload` | dmarcwatch/console.go:62-118 | the loops over the SQL store ingest all reports of all readable files in order and report the counters, failed files and sorted domains |
| `Upload.FilesAre` | dmarcwatch/console.go:64-107 | the reports ingested are all those of all readable files in order, and the failed files the others |
| `Upload.HandleUpload` | dmarcwatch/console.go:62-118 | the loops ingest all reports of all readable files in order and report the counters, failed files and sorted domains |
| `Findings.ValidExactly` | core/finding.go:102-118 | a finding passes exactly when fingerprint, target, check, title and remediation are there and the severity is one of the five; the refusal names something missing |
| `FindingStores.JoinedKeyIdentifies` | store/memory.go:18-18 | the NUL-joined key stands for module and fingerprint |
| `FindingStores.MemStore.Upsert` | store/memory.go:32-37 | overwrites the whole record of its key and no other |
| `FindingStores.MemStore.ListByTarget` | store/memory.go:20-30 | lists each record of the target exactly once, in whatever order |
| `FindingStores.MemStore.Get` | store/memory.go:39-44 | finds the record of a key if and only if there is one |
| `FindingStores.SqlStore.Upsert` | store/sqlite.go:112-142 | inserts, or updates all columns but id, target, check and first seen, or reports a taken id and changes nothing |
| `FindingStores.SqlStore.ListByTarget` | store/sqlite.go:76-85 | selects the rows of the target in table order |
| `FindingStores.UpsertAgrees` | store/sqlite.go:124-138 | the partial update equals the whole overwrite exactly for records that keep the stored id, first seen, target and check, or bring an unused id |
| `Reconcile.Reconcile` | store/reconcile.go:23-111 | the two loops leave the store, the newly open list, the rejected list and the set of resolved findings as the specification of a scan says |
| `Reconcile.UpsertFresh` | store/reconcile.go:38-90 | the first loop inserts, reopens or refreshes each valid finding against the records listed before it |
| `Reconcile.UpsertAbsent` | store/reconcile.go:92-108 | the second loop rewrites exactly the live records not seen and announces exactly those whose streak reaches the threshold |
| `Lifecycle.HandleFindingStatus` | web/server.go:255-282 | sets the status of an existing record to open, acknowledged or suppressed and changes nothing else; refuses resolved and unknown findings |
| `Lifecycle.ScanAt` | store/reconcile.go:38-108 | seen from one key a scan inserts, refreshes, counts an absence, or does nothing, and resolves exactly on expiry |
| `Lifecycle.ScanFlips` | store/reconcile.go:38-108 | a scan announces exactly the changes between resolved and unresolved |
| `Lifecycle.NotificationsAlternate` | store/reconcile.go:38-108 | over every run with the dashboard's edits the notifications of a finding alternate, opened first, and it is unresolved exactly while the last was opened |
| `Lifecycle.InStepExactly` | web/server.go:264-277 | records and notifications stay in step along a run if and only if no edit reopens a resolved record |
| `Lifecycle.ReopenedByHand` | web/server.go:264-277 | an edit of a resolved record makes the next missing scan say resolved twice in a row |
| `FindingRuns.DatesHold` | store/reconcile.go:46-108 | with a clock that never goes back, first seen is at most last seen, and a resolved record is resolved no earlier than last seen |
| `FindingRuns.IdentityFixed` | store/reconcile.go:46-90 | from insertion on no event removes a record or changes its id, first seen, target or check |
| `FindingRuns.SuppressionSticks` | store/reconcile.go:92-100 | without an edit of it a suppressed record stays suppressed along any run |
| `FindingRuns.ScanFrame` | store/reconcile.go:23-111 | a scan changes no record of another module or target |
| `FindingRuns.StreakCountsAbsences` | store/reconcile.go:67-108 | without edits the absent streak is the number of scans since the finding was last seen; below the threshold the record is open, from it on resolved |
| `FindingRuns.ResolvesOnTime` | store/reconcile.go:101-105 | a record resolves on exactly the threshold-th scan in a row that misses it |
| `FindingRuns.LiveIsSeen` | store/reconcile.go:38-108 | with a threshold of one the live records of the target are what the scan saw less what is suppressed |
| `Sightings.RecordsTell` | store/reconcile.go:46-84 | over any run a record exists exactly for findings that were seen; title, severity, remediation, evidence (or its marker beyond 65536 bytes) and last seen are those of the last scan that saw it, and id, module, fingerprint, target, check and first seen those of the first |
| `Sightings.LivesFollow` | store/reconcile.go:67-108 | status, absent streak and resolution time of a record follow the scans and edits of the run, step by step |
| `Sightings.ResolvedSince` | store/reconcile.go:101-105 | a resolved record carries the time of the scan that announced its resolution |
| `Sightings.ResolvedAtMeans` | store/reconcile.go:76-80 | with the dashboard's edits a record has a resolution time exactly while it is resolved |
| `Sightings.AnnouncedIsStored` | store/reconcile.go:62-88 | what is announced as newly open is the finding as it is now stored |
| `Sightings.RejectedAre` | store/reconcile.go:39-42 | the refused findings are exactly those that do not pass |
| `FindingAgreement.ScanAgrees` | store/sqlite.go:112-142 | for unused ids and one finding per fingerprint, one scan over the SQL table succeeds and leaves one row per record of the map store exactly when no finding of it is stored under another target |
| `FindingAgreement.StoresAgree` | store/sqlite.go:112-142 | along every such run of scans and edits the SQL table holds the map's records if and only if no scan reports a fingerprint stored under another target |
| `FindingAgreement.CoherentRunsAtHome` | store/reconcile.go:23-111 | scans that report only their own target's fingerprints meet that condition |
| `FindingAgreement.ScanStays` | store/sqlite.go:124-138 | nothing a scan does over the table changes id, target, check or first seen of a row |
| `FindingAgreement.SharedRowStays` | store/sqlite.go:124-138 | a row of another target stays there when a scan reports its fingerprint, and each such scan announces it as newly open |
| `CollectedRuns.PrintsShared` | core/finding.go:130-138 | findings of two domains can have the same fingerprint exactly when one domain is the other followed by a bar, a per-source check id, and nothing or a bar and anything |
| `CollectedRuns.BarsShare` | dmarcwatch/dmarcwatch.go:105-117 | an accepted target and a source address kept verbatim that share a fingerprint with another domain's finding |
| `CollectedRuns.BarFreeUntangled` | dmarcwatch/dmarcwatch.go:105-117 | targets without bars never do |
| `CollectedRuns.SharedRecordMoves` | store/reconcile.go:46-66 | over the map store, a scan that reports a fingerprint stored for another target takes its record over |
| `CollectedRuns.CollectedIsCoherent` | dmarcwatch/dmarcwatch.go:120-252 | the collector's findings meet what the lifecycle asks of a scan, among targets that share no fingerprints |
| `CollectedRuns.DashboardMirrorsCollector` | dmarcwatch/dmarcwatch.go:93-102 | after any run over such targets, a scan leaves open or acknowledged exactly the fingerprints Collect returned, less the suppressed |
| `CollectedRuns.CollectedRunsAlternate` | store/reconcile.go:38-108 | the alternation of notifications for runs of the collector's own scans |
| `Digests.SortBySeverity` | notify/notify.go:243-250 | the in-place insertion sort yields exactly the severity buckets, each in arrival order |
| `Digests.OrderMeaning` | notify/notify.go:178-190 | that order is most severe first (critical, high, medium, low, then the rest), stable, and has the same findings |
| `Digests.OrderUnique` | notify/notify.go:243-250 | no other arrangement is both ordered and stable |
| `Digests.BuildDigest` | notify/notify.go:178-190 | a digest lists the opened findings of a batch in severity order and the resolved ones in arrival order |
| `Digests.DigestReports` | notify/notify.go:178-190 | every event of a batch is in its digest under its kind |
| `Digests.SendWithRetry` | notify/notify.go:208-224 | delivered if and only if one of the allowed attempts succeeds; stops at the first success, otherwise uses all attempts |
| `Notify.KeyIdentifiesEvent` | notify/notify.go:122-125 | with no bar in module ids the deduplication key stands for kind, module and fingerprint |
| `Digests.RanksCompare` | notify/notify.go:228-241 | ranks compare like places in critical, high, medium, low, info, with unknown names last |
| `Notify.FilterExactly` | notify/notify.go:113-125 | in every interleaving, an open dispatcher takes an event that is not waiting yet exactly when it is a resolution, or there is no minimum, or it is at least as severe as the minimum |
| `Notify.WithDefaults` | notify/notify.go:65-79 | a batch size or number of attempts below one becomes 100 or 3, and nothing else changes |
| `Notify.AlwaysInv` | notify/notify.go:113-157 | in every interleaving the seen keys are those of pending, keys do not repeat in a batch, fewer than MaxBatch events wait, the timer is set exactly while something waits, a closed dispatcher holds nothing, and the wait group counts the sends that have not ended |
| `Notify.EventsConserved` | notify/notify.go:113-206 | for each module the accepted events are the flushed batches in order, then the pending ones |
| `Notify.CloseDrains` | notify/notify.go:151-157 | once Close has returned nothing is accepted any more and every accepted event was in a digest whose sends have ended on every channel |
| `Dispatcher.Dispatcher.Enqueue` | notify/notify.go:113-140 | severity filter, closed check, deduplication, and flush at MaxBatch or timer, as one step |
| `Dispatcher.Dispatcher.FlushLocked` | notify/notify.go:168-206 | everything pending becomes digests with one send per digest and channel, and pending, seen and timer are cleared |
| `Dispatcher.Dispatcher.BeginClose` | notify/notify.go:151-157 | flushes and closes as one step |
| `Dispatcher.Dispatcher.Send` | notify/notify.go:198-224 | ends a send once, with the outcome of the retries, and releases the wait group |
| `Delivery.OffersTracked` | notify/notify.go:122-126 | of alternating notices about a finding a batch takes the first two and drops the rest |
| `Delivery.OffersFollowed` | notify/notify.go:122-126 | the last batch with the finding has the one notice offered to it, or both kinds |
| `Delivery.ReaderInForm` | notify/format.go:14-34 | what the last digest to mention the finding leaves the reader with, resolved entries coming last, agrees with the record exactly when nothing was offered, the last batch with the finding was offered one notice about it, or the last notice is a resolution |
| `Delivery.DigestsForgetOrder` | notify/notify.go:178-190 | opened then resolved and resolved then opened make the same digest |
| `Delivery.ReopeningUnheard` | notify/format.go:14-34 | opened and sent, then resolved and opened within one batch: all three are accepted, and resolved is heard last |
| `Delivery.ReopeningLost` | notify/notify.go:122-126 | opened, resolved, opened within one batch is told as opened, resolved |
| `Backoff.BackoffFor` | sched/scheduler.go:339-351 | the loop with 64-bit wrap-around computes the specified delay |
| `Backoff.BackoffExact` | sched/scheduler.go:339-351 | the delay is min(RetryBase times 2^(n-1), RetryMax) for every n if and only if no doubling wraps before the cap |
| `Backoff.BelowHalfIsSafe` | sched/scheduler.go:339-351 | durations below 2^62 never wrap |
| `Backoff.BackoffMonotone` | sched/scheduler.go:339-351 | the delay is positive, never shrinks with more failures and never exceeds the cap |
| `Scheduler.AlwaysCounted` | sched/scheduler.go:180-336 | in every interleaving the semaphore counts the scans between acquire and release, and the wait group counts loops and the scans launched by loops and AddTarget |
| `Scheduler.CollectsBounded` | sched/scheduler.go:308-336 | running Collect calls never exceed the slots taken, nor those the workers; they are equal exactly when no scan is reconciling |
| `Scheduler.StopIsFinal` | sched/scheduler.go:197-205 | once Stop has returned after Start no loop and no loop-launched scan is alive or can ever start |
| `Scheduler.ReconcilingHoldsSlot` | sched/scheduler.go:308-336 | a run in which the only slot taken is a scan past its Collect call |
| `Scheduler.AddOutlivesStop` | sched/scheduler.go:151-166 | a scan of a freshly added target can collect after Stop has returned |
| `Scheduler.NowOutlivesStop` | sched/scheduler.go:209-229 | Stop can return while a scan of an on-demand sweep is collecting |
| `Scheduler.StopCovers` | sched/scheduler.go:151-229 | when Stop has returned, no scan is alive then or later short of a new on-demand sweep if and only if no AddTarget call is between its check and its scan and no on-demand scan is alive; the wait group stays at zero if and only if the former holds |
| `SchedulerRuns.StoriesAreTrue` | sched/scheduler.go:264-336 | every scan is where its own moves have taken it: a failed Collect or reconcile and an expired context end it as failed, a cancellation as cancelled |
| `SchedulerRuns.TimeAndCause` | sched/scheduler.go:187-205 | the context has ended as the first to end it did, by deadline or by cancellation |
| `SchedulerRuns.GivesUpWithContext` | sched/scheduler.go:309-314 | a scan of a loop or an added target gives up waiting only because the context has ended, and ends as it did |
| `SchedulerRuns.TargetsAreWanted` | sched/scheduler.go:140-176 | the targets of a module are those added and not removed |
| `SchedulerRuns.SweepCovers` | sched/scheduler.go:255-291 | a sweep that ends has come to every target the module had when it began |
| `SchedulerRuns.LoopsStay` | sched/scheduler.go:180-194 | every module registered at the start keeps its loop until the context ends |
| `SchedulerRuns.GatesFollowFailures` | sched/scheduler.go:251-289 | a target's gate depends only on the failures it reported in a row, counted from the moves of its scans, and the time of the last one |
| `SchedulerRuns.BackoffExactly` | sched/scheduler.go:258-289 | a sweep that comes to a target launches a scan exactly when it has not failed since its last success or cancellation, or min(RetryBase times 2^(k-1), RetryMax) has passed since the last of k failures in a row |
| `Ulid.EncodeCrockford` | store/ulid.go:35-49 | two-word shifting writes the 26 base-32 digits of the 128-bit value |
| `Ulid.ShiftCarries` | store/ulid.go:43-47 | the two-word step is division of the 128-bit value by 32 |
| `Ulid.RoundTrip` | store/ulid.go:35-49 | reading the symbols back gives the sixteen bytes |
| `Ulid.FirstSymbol` | store/ulid.go:35-49 | the first symbol is at most 7 |
| `Ulid.OrderPreserved` | store/ulid.go:36-37 | identifiers sort exactly like the bytes |
| `Ulid.NewULID` | store/ulid.go:18-32 | the identifier writes the low 48 bits of the clock and then the random bytes |
| `Ulid.TimeOrder` | store/ulid.go:9-13 | every identifier of one time precedes every identifier of another if and only if the low 48 bits of the clocks are so ordered |
| `Ulid.ClockWraps` | store/ulid.go:18-27 | one millisecond past the 48-bit range the order is lost |
| `Evidence.SanitizedIsSafe` | internal/aiclient/evidence.go:47-145 | no secret key at any level, at most 24 keys, 12 items and 401 runes everywhere, four levels, at most 24*24*24*12 leaves |
| `EvidenceContents.SecretExactly` | internal/aiclient/evidence.go:129-137 | a key is secret exactly when one of the seventeen words is in it, in whatever case |
| `Evidence.KeepsLeastKeys` | internal/aiclient/evidence.go:51-74 | a map keeps exactly its 24 least non-secret keys |
| `Evidence.SecretsNeverShow` | internal/aiclient/evidence.go:51-74 | evidence differing only in secret entries sanitises to the same evidence |
| `EvidenceContents.HarmlessUnchanged` | internal/aiclient/evidence.go:47-127 | evidence within every bound, without secret keys and without text the filter matches is returned as it is |
| `EvidenceContents.NoInstructions` | internal/aiclient/evidence.go:81-127 | if the markers themselves pass the filter, no text of at most 400 characters in the result matches it |
| `EvidenceContents.TextBecomes` | internal/aiclient/evidence.go:139-145 | text the filter matches is replaced whole, other text is kept up to 400 characters and an ellipsis |
| `EvidenceContents.PlacesKept` | internal/aiclient/evidence.go:51-113 | every kept entry and item is the sanitised form of the one in its own place, scalars stay, and what is nested too deep becomes the marker |
| `Evidence.SanitizeMapLoop` | internal/aiclient/evidence.go:51-74 | the loops over an unordered map compute the specified map |
| `Evidence.SanitizeValueLoop` | internal/aiclient/evidence.go:76-127 | the recursion terminates on every value, JSON round trips included, with the specified result |

## Left out

- XML decoding, gzip, zip and size caps: the model starts from a decoded report; what `net.ParseIP` makes of an address is a parameter.
- HTTP, JSON, flags, the dashboard page and the target tables: plumbing around the status edit and the upload loop, which are modelled.
- Webhook, Slack, Telegram, syslog and file channels: a channel is what it answers to each attempt.
- `license`, `verify` and the AI client's network and guard code; instruction-like text is a predicate given to the sanitiser.
- SHA-256: the fingerprint digest is a parameter, injective and never empty where distinctness is claimed.
- Wall clock, random bytes, jitter and timers: inputs; a timer may fire at any time, a sweep may begin at any time.
- Store errors, failing id generation and the SQLite driver with its transactions; tables are values changed atomically, without `received_at`.
- Rendered titles, remediation text and evidence: a finding's texts are stand-ins that are non-empty as the originals are.
- Float rounding: thresholds compare exact reals.
- Lower-casing of letters whose lower case is not ASCII; those that become ASCII, the Kelvin sign and the dotted I, are modelled, and so is the long s in folding.
- Overflow of instants and message counts.
- A nil map and an empty map are the same value; an empty evidence tree sanitises to an empty one.
- Overlapping reconciles of one target: scans of a run happen one after the other, as the engine has no lock of its own.
- `PruneResolvedBefore`, `ListOpen` and `ListAll`: they would only add easy members.
- Collector.Collect: a cancelled context is the only error; the in-memory store has no other.
- SqlCollector.Collect: a cancelled context is the only error; a failing query is not modelled.
- Scheduler goroutines are atomic steps on a value, not methods on an object: reading a gate, comparing it with the clock and launching the scan are one step, and so are updating a gate and leaving the wait group.
- PrunedFindings.PruneAlters: for a domain whose newest reports publish one policy; otherwise the overview itself is not determined.
- SqlPrune.SqlPruneAlters: likewise.
- Delivery.ReaderInForm: about a finding that no severity filter hides, at a dispatcher that is still open.
- Dispatcher.Dispatcher.Send: the pause between attempts and the 15-second timeout are not modelled.
