# Verified models of four protocols

This project models, in Dafny, the four stateful protocols at the centre of the backend and proves what they promise over every run:

1. **Accrual allocation** (`apps/allocation`). A pool of money is split in integer cents by the largest-remainder method; requests are reviewed, approved into an append-only ledger, and undone only by reversal entries. Files: `Distribution`, `Requests`, `Ledger`, `LedgerProofs`, `LedgerTheorems`, `RequestEffects`, `LedgerEffects`, `LedgerStore`, over `Sums` and `Ordering`.
2. **Analytics rollup** (`apps/analytics`). Raw events older than a retention window are aggregated into daily metrics and deleted, and queries stitch both together. The reference is a log that is never purged. Files: `Events`, `Rollup`, `RollupProofs`, `RollupOverlap`, `Tally`, `Queries`, `QueryProofs`, `AnalyticsTheorems`, `AnalyticsEffects`, `QueryEffects`, `AnalyticsStore`.
3. **Migration import** (`apps/data_migration`). Workers claim a batch under a run token, beat, stall, are superseded and retried, while operators preview, confirm and retry and everybody else edits objects. Every database transaction is one step, and all interleavings are runs. Files: `Migration`, `MigrationSteps`, `MigrationProofs`, `MigrationRuns`, `MigrationTheorems`, `MigrationLinks`, `MigrationOutcome`, `MigrationCompletion`, `MigrationDeadEnds`, `MigrationEffects`, `ExecutionEffects`, `PlanEffects`, `MigrationStore`; the merge of migrated media into record fields is `MediaAttach` with `MediaEffects`.
4. **Messaging** (`apps/messaging`). A per-conversation sequenced log with idempotent sends, read cursors, unread counts and incremental reads. Files: `Messaging`, `MessagingProofs`, `MessagingTheorems`, `MessagingEffects`, `MessagingStore`.

Each part has the same shape: a datatype for the stored state and a function for each operation, `After` and `Run` for one step and for any sequence of steps, invariants of every run, theorems about every run, modules named `…Effects` that say apart from those functions, with the constants written out, when each call goes through, in which error it ends otherwise, and every field it writes, and a class whose imperative methods follow the code statement by statement and are proved to do exactly what the functions say. `dafny verify dfyconfig.toml` checks everything.

Conventions. Money is a real number on input and integer cents after quantization. Times are integer seconds, days and months integers; the clock, the caller's calendar month, the active members and the outcome of foreign calls are parameters. A content hash is taken to be injective, so it is modelled by the value it covers; the fingerprint of an object covers its key and the time of its last save (apps/data_migration/conversion.py:127-130), so it is modelled as a version that every save moves on and that an update past the save leaves as it is. Text that is only compared is an integer or string token; a text that a save normalizes is a token for what a loose comparison keeps of it, one for how that is written, and one for its superfluous space. A list that Django returns in key order is a sequence in that order.

## What the proofs found

- A request whose `performance_month` is not the first day of a month and that has a non-zero share can be created, but no approval of it can ever succeed (`LedgerTheorems.UnapprovableRequest`); these are the only reachable requests that a save-time guard stops (`LedgerTheorems.GuardsStopOnlyUnwritableMonths`), and submitting one again keeps the fault (`LedgerTheorems.ResubmissionKeepsTheTerms`). Every caller in the services passes `effective_month_for(...)` or the lease's own `performance_month`, so the input arises only where a lease's `performance_month` was changed to another day of a month, as the model admin for leases allows, before apps/house/services/allocations.py:424-438 reads it.
- The rollup keeps every day's record in all runs if and only if the oldest event that may still be reported is inside the raw retention (`RollupProofs.RunsKeepDaysExactly`).
- A purge keeps the record exactly when the day still has raw events or has no metric rows (`RollupProofs.PurgeKeepsExactly`), so a day that is purged twice is lost (`RollupProofs.SecondPurgeLosesTheDay`). The code lists the due days before its transactions, so two overlapping rollups can purge the same day: with those settings the record survives exactly when no day was purged twice (`RollupOverlap.OverlapsKeepDaysExactly`), which holds whenever no rollup lists its days while another is at work (`RollupOverlap.RollupsInTurnKeepDays`), and fails for good when two list the same first day (`RollupOverlap.OverlapLosesTheDay`).
- An object that somebody saved after it was planned for is never overwritten by the import (`MigrationTheorems.SavedTargetIsNotOverwritten`), but an update past the save, as apps/house/services/settings.py:244 makes one on a building, is not noticed: after any edits a planned execution is refused exactly when its target was saved or the save of what it writes is refused, and otherwise an update plan lays its values over the edit (`MigrationTheorems.EditsAreNoticedExactly`; a run in which that happens is `MigrationDeadEnds.UnsavedEditIsOverwritten`).
- An import that was confirmed without issues, and that nobody disturbs, can still end partially failed. It finishes every record exactly when no record changes an object that a later record was planned to work on, no responsibility is for a landlord record that is deleted at the source, and every save will be accepted (`MigrationCompletion.ConfirmedImportOutcome`). The last can be read off the confirmed plans and the tables (`SavesPass`): the checks of each saved object's own fields pass; its building and landlord are there, or come with an earlier record; and its unique key is free, or is freed by an earlier update and taken by no earlier record. A new responsibility needs its contact to be there as a landlord. Planning accepts packages that break each condition: `MigrationDeadEnds.ConfirmedButClashing`, `MigrationDeadEnds.ConfirmedButStuck`, `MigrationDeadEnds.ConfirmedWithoutAddress` (a building without an address, which planning lets be empty and a save does not) and `MigrationDeadEnds.ConfirmedOntoTakenKey` (planning looks for duplicates only of creations). Others that the condition covers are texts that become equal when a save removes superfluous space, listing a house that is inactive, and a finished landlord or building record whose object was changed or removed since.
- A house whose landlord is created by the same import ends without a landlord, although the landlord comes first: planning stores an empty link, and the execution takes the stored link as decided (`MigrationLinks.PlannedWithoutLandlord`, `MigrationLinks.NewLandlordIsNotLinked`).

## Model

| member | source | states |
|---|---|---|
| Distribution.DistributeByWeight | apps/allocation/services.py:106-124 | the loops with in-place extra cents return the specified split for valid weights and the weight error otherwise |
| Distribution.ConservesTotal | apps/allocation/services.py:106-124 | the cents of the shares add up to the total exactly |
| Distribution.LeftoverInRange | apps/allocation/services.py:119-123 | the leftover is the remainders' total over 10000 and less than the number of shares |
| Distribution.WithinQuota | apps/allocation/services.py:116-123 | every share is the floor or the ceiling of total times weight over 10000 |
| Distribution.NoExtraForWholeShare | apps/allocation/services.py:119-123 | a share whose exact part is whole gets no extra cent |
| Distribution.LeastSquaredError | apps/allocation/services.py:106-124 | no integer cent vector with the same total has a smaller sum of squared deviations from the exact parts |
| Distribution.LargerRemainderFirst | apps/allocation/services.py:121-123 | extra cents go to larger remainders first |
| Distribution.LargerWeightNotFewerCents | apps/allocation/services.py:106-124 | for a non-negative total a strictly larger weight never receives fewer cents |
| Distribution.ExtraCentRule | apps/allocation/services.py:121-123 | a share gets an extra cent exactly when fewer shares than leftover cents precede it by remainder, sort order and user id |
| Distribution.OrderOfSharesIrrelevant | apps/allocation/services.py:121-131 | with distinct beneficiaries, permuting the shares leaves every beneficiary's cents unchanged |
| Requests.CalculateBasisAmount | apps/allocation/services.py:64-81 | the loop returns the specified basis or the first error |
| Requests.BasisAccepted | apps/allocation/services.py:64-81 | a basis is accepted exactly when there are items, each is positive with a known effect, and their signed sum is the non-negative result |
| Requests.QuantizeNearest | apps/allocation/services.py:51-52 | quantizing is to the nearest cent, halves away from zero |
| Requests.PercentagePool | apps/allocation/services.py:91-96 | a percentage pool lies between 0 and the basis, at most half a cent from the exact percentage |
| Requests.CreatedTermsSound | apps/allocation/services.py:141-262 | the terms of every accepted submission satisfy the row constraints and pass the approval recheck at any later time unless membership changed; computed shares add up to the pool |
| LedgerStore.Store.CreateAllocationRequest | apps/allocation/services.py:141-239 | in place: the new request, or the error and no change |
| LedgerStore.Store.ResubmitSnapshot | apps/house/services/allocations.py:339-367 | in place: a rejected, expired or withdrawn request is copied into a new pending one with its accrual month kept, or the error and no change |
| LedgerStore.Store.ComputeTerms | apps/allocation/services.py:155-194 | the frozen terms of a submission, or the first error in the code's order |
| LedgerStore.Store.SplitPool | apps/allocation/services.py:185-194 | computed or given cents of the shares, given ones checked against the pool |
| LedgerStore.Store.ValidateTotals | apps/allocation/services.py:242-262 | the loop over items and the share checks give the specified fault |
| LedgerStore.Store.ApproveLocked | apps/allocation/services.py:269-306 | in place: status, review fields and one allocation entry per non-zero share, or the error and no change |
| LedgerStore.Store.RejectLocked | apps/allocation/services.py:309-325 | in place: a pending request in time is rejected with a reason |
| LedgerStore.Store.ExpireLocked | apps/allocation/services.py:328-333 | in place: a pending request expires |
| LedgerStore.Store.WithdrawLocked | apps/house/services/allocations.py:276-288 | in place: a pending request is withdrawn with a reason, an already withdrawn one is left as it is |
| LedgerStore.Store.VoidLocked | apps/allocation/services.py:336-381 | in place: an approved request is voided and every allocation not yet reversed gets its reversal |
| LedgerStore.Store.CreateManualEntry | apps/allocation/services.py:384-425 | in place: one signed manual entry, or the error and no change |
| LedgerStore.Store.SaveRequest | apps/allocation/models.py:207-249 | a save goes through exactly when constraints, transition table and frozen fields allow it |
| LedgerStore.Store.BulkCreate | apps/allocation/models.py:344-384 | rows are written all or none, each guarded against those before it |
| LedgerTheorems.EntriesNetToLiveShares | apps/allocation/services.py:269-425 | after any steps a request's allocation and reversal entries net, per beneficiary and month, to its approved shares if approved and to zero otherwise |
| LedgerTheorems.MonthlyTotalsAreLive | apps/allocation/queries.py:39-56 | in every reachable state a monthly total is live approved shares plus signed manual entries, its four columns add up to it, and a missing row is worth nothing |
| LedgerTheorems.StepMovesForward | apps/allocation/models.py:20-36 | every step changes a request only along the transition table with frozen fields kept, and only appends entries |
| LedgerTheorems.RunMovesForward | apps/allocation/models.py:20-72 | over any further run final requests keep everything, approved ones stay approved or are voided with their review unchanged, and terms never change |
| LedgerTheorems.AuditAndDeadline | apps/allocation/models.py:139-205 | every reachable request has the audit shape of its status and was reviewed, if at all, before 168 hours had passed |
| LedgerTheorems.ReversalsAreOppositeAndUnique | apps/allocation/models.py:344-378 | every reachable entry has the sign and source of its kind; an original has at most one reversal, of opposite amount, same beneficiary and month |
| LedgerTheorems.ApprovalSucceedsExactly | apps/allocation/services.py:269-306 | an approval of a reachable request succeeds if and only if the stated checks hold |
| LedgerTheorems.GuardsStopOnlyUnwritableMonths | apps/allocation/models.py:358-378 | save-time guards stop a step of a reachable state only for an approval whose month is not a first day although a share is non-zero |
| LedgerTheorems.UnapprovableRequest | apps/allocation/services.py:284-305 | a concrete request that is created and that no approval can accept |
| LedgerTheorems.ResubmissionKeepsTheTerms | apps/house/services/allocations.py:404-411 | in every reachable state submitting a closed request again adds one pending request with the same items, shares, basis, pool and accrual month, and one that no approval could accept stays so |
| RequestEffects.BasisExact | apps/allocation/services.py:64-81 | the basis is the signed sum of the nearest cents of the items, and each error comes exactly when its first offending item does |
| RequestEffects.PoolExact | apps/allocation/services.py:84-103 | the pool is the nearest cents of the percentage of the basis or of the given amount, and each error has its exact condition |
| RequestEffects.SharesExact | apps/allocation/services.py:127-138 | the share inputs are refused exactly for being none, a repeated beneficiary or a weight out of range, in that order |
| RequestEffects.CentsExact | apps/allocation/services.py:185-194 | with fixed amounts the share of each beneficiary is the nearest cents of its own given amount; otherwise the split is by weight |
| RequestEffects.TermsExact | apps/allocation/services.py:141-239 | exactly which submissions are refused, with which first error, else every field of the frozen terms from the input |
| LedgerEffects.CreationExact | apps/allocation/services.py:141-239 | an accepted submission appends one pending request with the frozen terms and nothing else; a refused one changes nothing |
| LedgerEffects.RejectionExact | apps/allocation/services.py:309-325 | in every reachable state a rejection succeeds if and only if the request is pending, a reason is given, the reviewer is an active member and 604800 seconds have not passed; then exactly that request is rejected with that reviewer, time and reason; each failure has its error and changes nothing |
| LedgerEffects.ExpiryExact | apps/allocation/services.py:328-333 | a reachable pending request becomes expired with no other field set, and nothing else changes; any other stays as it is |
| LedgerEffects.WithdrawalExact | apps/house/services/allocations.py:276-288 | a reachable pending request with a reason is withdrawn with actor, time and reason and nothing else changes; a withdrawn one is left, any other call fails with its error |
| LedgerEffects.ApprovalExact | apps/allocation/services.py:269-306 | the exact error cascade of an approval; on success the review fields, and exactly one entry per non-zero share with its beneficiary, cents and month, the given performance month or else that of the submission |
| LedgerEffects.VoidingExact | apps/allocation/services.py:336-381 | the exact error cascade of a voiding; on success the void fields, and exactly one opposite entry for each allocation entry of the request not yet reversed |
| LedgerEffects.ManualExact | apps/allocation/services.py:384-425 | exactly when a manual entry is accepted, and then the one entry it appends, field by field |
| LedgerEffects.ManualMovesOneRow | apps/allocation/queries.py:39-56 | an accepted manual entry raises or lowers the monthly row of its beneficiary and month by the nearest cents of the amount, and no other row |
| LedgerEffects.MonthlyRowExact | apps/allocation/queries.py:39-56 | each column of a monthly row is the sum of the cents of the entries of its kind, organization, beneficiary and month |
| LedgerEffects.ResubmissionExact | apps/house/services/allocations.py:339-367 | which reachable requests can be submitted again and every field of the new one; nothing else changes |
| LedgerEffects.SaveExact | apps/allocation/models.py:139-249 | a save goes through exactly when the audit fields fit the status, the status may move so and the frozen fields are kept |
| LedgerEffects.AppendExact | apps/allocation/models.py:344-384 | rows are written exactly when each may stand after those before it, and then at the end, in order |
| AnalyticsStore.Store.RecordEvent | apps/analytics/services.py:120-206 | in place: the stored event, the earlier one it repeats, or a refusal |
| Events.RepeatMeans | apps/analytics/services.py:163-166 | an earlier event is returned exactly when one with the same organization, source and key is stored |
| Events.RecentActMeans | apps/analytics/services.py:168-183 | an earlier event is returned exactly when one with the same act and visitor was received inside the window |
| RollupProofs.StoredEventsApart | apps/analytics/services.py:163-206 | in every run no two stored events share a key, and equal acts of a visitor were received more than the window apart |
| AnalyticsEffects.RecordingExact | apps/analytics/services.py:120-206 | exactly which submissions are refused, answered by which earlier event, or stored; a stored event has every field of its submission |
| AnalyticsEffects.RecordingStores | apps/analytics/services.py:185-206 | a stored event is appended to the raw events and nothing else changes; any other submission changes nothing |
| AnalyticsEffects.PurgeExact | apps/analytics/tasks.py:57-71 | a purge of a day leaves none of its raw events, every other one in its order, and the other days' rows |
| AnalyticsEffects.DayRowsExact | apps/analytics/tasks.py:21-54 | for each of the eight groupings the rows of a day are one per combination that occurs, with its number of events and of distinct visitors |
| AnalyticsEffects.ReferenceCounts | apps/analytics/services.py:251-262 | the reference count is the number of events of the organization in the days asked for that match source, name and target |
| AnalyticsStore.Store.RebuildDailyMetrics | apps/analytics/tasks.py:21-54 | in place: the day's rows are replaced by the eight groupings of its raw events |
| AnalyticsStore.Store.RollupDay | apps/analytics/tasks.py:64-68 | in place: one day's rebuild and deletion as one transaction |
| AnalyticsStore.Store.RollupAndPurge | apps/analytics/tasks.py:57-69 | the loop over due days leaves no raw event before the raw range and returns how many it deleted |
| RollupProofs.RunSound | apps/analytics/tasks.py:57-69 | if the maximal event age is within the retention, in every run each day has all its accepted events raw and no rows, or no raw events and the rows of the full log |
| RollupProofs.RunsKeepDaysExactly | apps/analytics/services.py:92-101 | all runs keep all days' records if and only if the maximal event age is below the retention |
| RollupProofs.PurgeKeepsExactly | apps/analytics/tasks.py:21-24 | purging a day keeps the record if and only if the day has raw events or no stored metric rows |
| RollupProofs.SecondPurgeLosesTheDay | apps/analytics/tasks.py:63-68 | with the maximal event age within the retention, in every reachable state a day that a rollup finds due survives one purge and never a second one |
| RollupOverlap.OverlapsKeepDaysExactly | apps/analytics/tasks.py:57-69 | with the maximal event age within the retention, however rollups that listed their days earlier overlap with each other and with recording, all records are kept if and only if no day was purged twice |
| RollupOverlap.RollupsInTurnKeepDays | apps/analytics/tasks.py:57-69 | with that age, if no rollup lists its days while another still has days to purge, no day is purged twice and all records are kept |
| RollupOverlap.OverlapLosesTheDay | apps/analytics/tasks.py:60-68 | with that age, from every state with a due day and no rollup at work, two rollups that list it first and both purge it lose its record, and nothing done later brings it back |
| QueryProofs.DailyRowsCount | apps/analytics/tasks.py:46-53 | the eight groupings of a day count, for every selection the queries make, what its events count |
| QueryProofs.CountAccount | apps/analytics/services.py:244-257 | for every range and selection the stitched count plus the stale raw events is the count of the never-purged log |
| QueryProofs.CountExact | apps/analytics/services.py:238-262 | once rolled up, every stitched count equals that of the full log |
| QueryProofs.VisitorsExact | apps/analytics/services.py:265-266 | once rolled up, visitors are exact wherever they are reported |
| AnalyticsTheorems.OverviewExact | apps/analytics/services.py:269-322 | in every run the overview's counts account for the full log; visitors are withheld exactly when the range mixes days with metrics, and are otherwise exact once rolled up |
| AnalyticsTheorems.TrendExact | apps/analytics/services.py:325-364 | every day and event has one point, exact for the full log, visitors included even for purged days |
| AnalyticsTheorems.RankingExact | apps/analytics/services.py:381-399 | once rolled up, the ranking lists every target with a matching logged event once, with its full total, by descending total then id |
| AnalyticsTheorems.RankedItemExact | apps/analytics/services.py:401-433 | each ranked target's figures by event add up to its total with or without an event filter, and once rolled up figures and reported visitors are the log's |
| AnalyticsTheorems.MetricsSumToTotal | apps/analytics/services.py:381-433 | totals and figures by event, read from different scopes, agree |
| AnalyticsTheorems.PagesCoverRanking | apps/analytics/services.py:394-399 | the pages one after another are the ranking, and each page's items are those of its targets |
| QueryEffects.OverviewMeans | apps/analytics/services.py:265-322 | the total and, for each registered name in order, its count are numbers of events of the log, short only of raw events still to be rolled up; visitors are shown exactly for the days kept and for a single day, and are then those of the log |
| QueryEffects.TrendMeans | apps/analytics/services.py:325-363 | a trend is refused exactly when an asked name is not registered; else each day and name has its point in its place, with the count and visitors of the log |
| QueryEffects.RankingMeans | apps/analytics/services.py:389-410 | larger totals first, smaller identifiers among equals; a listed target's total is its number of events, and one that is not listed has none |
| QueryEffects.ItemMeans | apps/analytics/services.py:416-460 | the figures by event of a ranked target are its numbers of events, and when its visitors are shown, and which they are |
| QueryEffects.PageMeans | apps/analytics/services.py:367-460 | a page of a registered kind is its part of the ranking, item by item, pages and sizes starting at 1; any other kind is refused |
| AnalyticsStore.Store.OverviewMetrics | apps/analytics/services.py:269-322 | the accumulating queries compute the specified overview |
| AnalyticsStore.Store.TrendMetrics | apps/analytics/services.py:325-364 | unregistered event names are refused, else the loop over days computes the specified points |
| AnalyticsStore.Store.TargetMetrics | apps/analytics/services.py:367-433 | an unregistered target type is refused, else the dictionaries of totals and metrics give the specified page |
| AnalyticsStore.Store.GroupedCounts | apps/analytics/services.py:260-262 | merging metric rows and raw rows into one dictionary gives the specified tally |
| MigrationStore.Store.PreviewBatch | apps/data_migration/services.py:173-365 | in place: refused while importing, else every record replanned, members bound, version and status set |
| MigrationStore.Store.PlanBatch | apps/data_migration/services.py:198-365 | the loop over records, collecting the keys they write, gives the specified plans, bound members and issues, duplicates of creations among them |
| MigrationStore.Store.ConfirmBatch | apps/data_migration/services.py:368-388 | in place: the import starts, or the recomputed preview is rolled back |
| MigrationStore.Store.ReopenFailed | apps/data_migration/api.py:83-87 | in place: failed records become pending, whatever the batch is doing |
| MigrationStore.Store.ExecuteRecord | apps/data_migration/execution.py:25-136 | in place: one record's transaction under a token, or no change |
| MigrationStore.Store.BusinessRecord | apps/data_migration/execution.py:43-99 | the stale-mapping check and the create, update, reuse and skip branches do what is specified, refused saves included |
| MigrationStore.Store.WorkOn | apps/data_migration/execution.py:75-99 | an existing object is worked on only at its planned version and if its save is accepted; an update lays the planned values over it and moves its version, and mapping and state are written |
| MigrationStore.Store.CreateFor | apps/data_migration/execution.py:57-73 | an object with the planned values is created for the record if its save is accepted, a house only with a building that is there |
| MigrationStore.Store.OtherRecord | apps/data_migration/execution.py:100-117 | staff bindings, responsibilities and archived records do what is specified; a new responsibility needs a landlord of the organization |
| MigrationStore.Store.Claim | apps/data_migration/tasks.py:61-70 | in place: a fresh token exactly when the batch imports and no live lease is held |
| MigrationStore.Store.Heartbeat | apps/data_migration/tasks.py:74-75 | in place: the heartbeat advances exactly when the token is still held |
| MigrationStore.Store.MarkFailed | apps/data_migration/tasks.py:80-84 | in place: a record that is not final fails, under the token only |
| MigrationStore.Store.RefreshSummary | apps/data_migration/services.py:391-399 | the counting loop returns the counts by state, stored under the token only |
| MigrationStore.Store.FinishImport | apps/data_migration/tasks.py:87-90 | in place: final status and token release, under the token only |
| MigrationStore.Store.WorkRecord | apps/data_migration/tasks.py:73-85 | one turn of the loop makes exactly the worker's steps |
| MigrationStore.Store.ExecuteBatch | apps/data_migration/tasks.py:57-90 | run without interference, the whole job is a run of the step system that ends with every record final or failed, the token released, and the status and summary that say so; with no crash its records are those of the loop over specified turns |
| MigrationRuns.RunSound | apps/data_migration/tasks.py:57-96 | every run keeps the invariants on tokens, identifiers, confirmed plans, single import and creation log |
| MigrationTheorems.SupersededForever | apps/data_migration/tasks.py:73-90 | a worker that lost its token never holds it again and no later step of it changes the tables |
| MigrationTheorems.ClaimSupersedes | apps/data_migration/tasks.py:61-75 | once a batch that a worker holds can be claimed and is, the token goes to the new worker and no later step of the old one changes the tables, whatever happens between |
| MigrationTheorems.HeartbeatProtects | apps/data_migration/tasks.py:64-75 | after a heartbeat nobody takes the batch until the lease has passed on the clock, whatever others do |
| MigrationEffects.ClaimExact | apps/data_migration/tasks.py:61-72 | a claim hands the batch to a token nobody had, with all records to do by kind and id, if and only if the batch imports and is unheld or was last heard of 900 seconds ago or more; otherwise nothing changes |
| MigrationEffects.ReachableClaim | apps/data_migration/tasks.py:61-72 | the same in every reachable state |
| MigrationEffects.SilentWorkerIsReplaced | apps/data_migration/tasks.py:156-157 | in every run, when a worker that holds its batch makes no step while 900 seconds pass and nobody else claims, the next claim hands the batch over |
| MigrationEffects.LeaseIsKept | apps/data_migration/tasks.py:64-65 | before 900 seconds have passed since the last heartbeat a claim changes nothing |
| MigrationEffects.BeatExact | apps/data_migration/tasks.py:73-75 | a beat under the token writes the time and nothing else, and the record is executed next |
| MigrationEffects.MarkExact | apps/data_migration/tasks.py:80-84 | a record that raised becomes failed unless it is finished, nothing else changes, and the next record is up |
| MigrationEffects.SummaryExact | apps/data_migration/services.py:391-399 | each stored count is the number of records in its state, and the worker knows whether one is pending or failed |
| MigrationEffects.FinishExact | apps/data_migration/tasks.py:87-90 | the batch is completed, or partially failed if a record was open, unheld, at the time now, and nothing else changes |
| MigrationEffects.ConfirmExact | apps/data_migration/services.py:368-388 | an import starts if and only if no other of the organization runs, the batch awaits it or failed partially, and a new preview gives the confirmed version without issues; it starts unheld and now |
| MigrationEffects.ReopenExact | apps/data_migration/api.py:83-87 | exactly the failed records of the batch become pending and nothing else changes |
| PlanEffects.PreviewExact | apps/data_migration/services.py:173-365 | every record gets the plan and the issue it should, bindings become choices, the version states all of it, and the batch is blocked exactly when there is an issue or the package is incomplete |
| PlanEffects.BusinessPlanned | apps/data_migration/services.py:226-325 | the plan of a landlord, building or house: its object, action, building and landlord, the operator's values before those of the source, and exactly when it has an issue |
| PlanEffects.DoubledExact | apps/data_migration/services.py:300-323 | a creation is a duplicate exactly when an object that looks alike is there or an earlier record writes the same |
| PlanEffects.RelationPlanned | apps/data_migration/services.py:326-331 | a relation becomes a responsibility exactly when its staff is bound to a member and its landlord is in the package |
| PlanEffects.BoundExact | apps/data_migration/services.py:214-225 | choices of members stay, and each other source bound by a plan becomes one, by the first record that binds it |
| ExecutionEffects.ExecutionExact | apps/data_migration/execution.py:25-136 | under the batch's token only, a finished record is left alone and any other does all that its kind and plan say, to every field of every table, or nothing |
| ExecutionEffects.BusinessExact | apps/data_migration/execution.py:43-99 | a creation, an update, a reuse and a skip each happen exactly under their conditions and write exactly their object, record and mapping; a stale plan only skips onto the mapped object |
| ExecutionEffects.OtherExact | apps/data_migration/execution.py:100-117 | a staff record is bound, a responsibility given, or the record archived, exactly under its conditions, and nothing else is written |
| ExecutionEffects.SaveExact | apps/house/models.py:50-52 | a save goes through exactly when the object is valid alone, its links stand and no other object clashes with what is stored |
| MigrationTheorems.FinalBusinessRecordStays | apps/data_migration/execution.py:36-37 | house, building and landlord records never leave a final state nor change their object, across preview and retry |
| MigrationTheorems.ImportRunsTheConfirmedPlan | apps/data_migration/services.py:173-177 | while a batch imports, its plans and choices are those of the confirmed preview without issues, and every record that is final stays final |
| MigrationTheorems.ImportStartsByConfirming | apps/data_migration/services.py:368-388 | an import starts only by confirming the version recomputed at that moment, its plans and members included, without issues and with no other import of the organization |
| MigrationTheorems.ImportEndsByOutcome | apps/data_migration/tasks.py:86-90 | an import ends only by its token holder, completed exactly when every record is final, else partially failed |
| MigrationTheorems.OneImportAtATime | apps/data_migration/services.py:370-372 | in every run at most one batch of an organization imports |
| MigrationTheorems.SummaryCountsRecords | apps/data_migration/services.py:391-399 | each of the seven counts is the number of records in its own state, and they add up to all records |
| MigrationTheorems.StoredSummariesAddUp | apps/data_migration/services.py:391-399 | in every run the seven counts of every stored summary add up to the number of the records of its batch |
| MigrationTheorems.WorkAddsOnlyLoggedObjects | apps/data_migration/execution.py:57-73 | a worker's step adds at most one object, of the record's kind and organization, and then it is logged |
| MigrationTheorems.EachRecordCreatesOnce | apps/data_migration/execution.py:25-99 | in every interleaving each record creates at most one object of its own kind |
| MigrationTheorems.OneObjectPerSource | apps/data_migration/services.py:229-244 | over all batches a source that has an object gets another only where the operator chose target 0 |
| MigrationTheorems.StaleCreate | apps/data_migration/execution.py:44-55 | a create plan older than its source's mapping becomes a skip onto the mapped object exactly when the content is the same, the object is available and is a landlord already or may become one, else it fails without effect |
| MigrationTheorems.SavedTargetIsNotOverwritten | apps/data_migration/execution.py:75-77 | an object saved by anyone after it was planned for is never worked on under that plan, however late |
| MigrationTheorems.EditsAreNoticedExactly | apps/data_migration/conversion.py:127-130 | after any edits of any objects, a record that could be executed is refused if and only if its target was saved among them or the save of what it writes is refused; otherwise an update lays the planned values over what the target now holds |
| MigrationDeadEnds.UnsavedEditIsOverwritten | apps/house/services/settings.py:243-244 | a concrete run: while a package is imported its planned contact is changed past the save, the execution succeeds and its values go over the change |
| MigrationTheorems.ExecutionWritesThePlan | apps/data_migration/execution.py:56-94 | with its mapping as planned, an executed business record creates or updates its planned object with the planned values, tidied and under a key nobody else has, or leaves it, and touches no other object |
| MigrationLinks.CreatedHouseStandsInOwnBuilding | apps/data_migration/execution.py:58-71 | in every run a created house stands in the planned building or its source building's object, an existing building of the importing organization, has no landlord or one of the organization, and its room number is its own in the building |
| MigrationLinks.PlannedWithoutLandlord | apps/data_migration/services.py:280-294 | a house plan without issue leaves the house without a landlord if and only if the operator chose so, or chose nobody and the landlord is created by the same import |
| MigrationLinks.NewLandlordIsNotLinked | apps/data_migration/execution.py:62-63 | executing such a plan, however late, leaves a house without a landlord |
| MigrationOutcome.TurnSucceeds | apps/data_migration/execution.py:36-117 | with an up-to-date plan and its dependencies' kinds worked on before, a record's turn succeeds if and only if its save is accepted and a responsibility has a landlord, and then in the state its plan names |
| MigrationOutcome.DutyFails | apps/data_migration/execution.py:109-111 | a responsibility for a landlord record deleted at the source ends unfinished |
| MigrationOutcome.SpoiledFails | apps/data_migration/execution.py:75-92 | of two records planned on one object, the first changing it, one ends unfinished |
| MigrationCompletion.UndisturbedImportCompletesExactly | apps/data_migration/tasks.py:71-87 | an up-to-date import left alone finishes all records if and only if no plan spoils a later one, no responsibility is for a deleted landlord, and every save passes as foreseen from the plans and the tables at the start; and then each record is in the state its plan names |
| MigrationCompletion.ConfirmedImportOutcome | apps/data_migration/services.py:368-388 | in every reachable state the same holds of a batch just confirmed and claimed: confirming leaves every plan up to date |
| MigrationCompletion.SavePassesAhead | apps/data_migration/tasks.py:71-85 | a successful turn leaves the save condition of every later record as it was: what is foreseen at the start is what the save meets |
| MigrationDeadEnds.ConfirmedButStuck | apps/data_migration/services.py:326-331 | a concrete package with a responsibility for a deleted landlord is previewed and confirmed without an issue, and its undisturbed import ends with an open record |
| MigrationDeadEnds.ConfirmedButClashing | apps/data_migration/services.py:228-325 | a concrete package with two landlord records mapped by choice to one object is previewed and confirmed without an issue, the first record spoils the second, and the undisturbed import ends with an open record |
| MigrationDeadEnds.ConfirmedWithoutAddress | apps/house/models.py:50-52 | a concrete package with a building without an address is previewed and confirmed without an issue, breaks the save condition, and its undisturbed import ends with an open record |
| MigrationDeadEnds.ConfirmedOntoTakenKey | apps/data_migration/services.py:300-323 | a concrete package that updates a contact to the name and phone number of another is previewed and confirmed without an issue, breaks the save condition, and its undisturbed import ends with an open record |
| MediaAttach.Field.AttachAsset | apps/data_migration/execution.py:139-189 | in place: nothing before execution, for a record deleted at the source or a removed target; else the field, its expectation and its bindings become the closed form, or are detached |
| MediaAttach.Field.AddReady | apps/data_migration/execution.py:170-188 | the loop over ready bindings computes the closed form and each binding's state |
| MediaAttach.MergedMeaning | apps/data_migration/execution.py:170-184 | the merged field keeps the originals in front, adds only ready media, none twice, and never overfills |
| MediaAttach.MergedLeavesNoRoomUnused | apps/data_migration/execution.py:174-184 | a ready media is left out only when the field is full |
| MediaAttach.FreshPrefix | apps/data_migration/execution.py:174-181 | new media are taken in the order of their first bindings |
| MediaAttach.AttachingConverges | apps/data_migration/execution.py:139-189 | any order and repetition of execution, asset changes and attaches that ends attached leaves the originals and the first new media that fit, and each ready binding attached exactly when its media is there |
| MediaAttach.AttachingIsConfluent | apps/data_migration/execution.py:139-189 | two histories with the same ready assets leave the same field |
| MediaAttach.UnexpectedEditWins | apps/data_migration/execution.py:167-169 | after an unexpected edit the next attach detaches every active binding and no later unforced call writes the field |
| MediaAttach.DetachedFieldIsLeftAlone | apps/data_migration/execution.py:141-142 | a detached field changes only by edits until a forced retry |
| MediaAttach.RetryKeepsContent | apps/data_migration/api.py:150-152 | a forced retry keeps the current content as a prefix and makes it the new originals |
| MediaEffects.AttachExact | apps/data_migration/execution.py:140-189 | one logo, three videos, nine images: when an attach does nothing, detaches or merges, and then every field, the content filled binding by binding while there is room |
| MediaEffects.RetryExact | apps/data_migration/api.py:150-152 | a retry of a succeeded asset takes its detached bindings back and merges onto the content as it is; any other changes nothing |
| MediaEffects.OthersExact | apps/data_migration/execution.py:126-133 | the first execution remembers the content as original and expected; no other step writes what it should not |
| MessagingStore.Store.SendMessage | apps/messaging/services.py:277-321 | in place: the new or the earlier message, or the error and no change |
| MessagingStore.Store.MarkRead | apps/messaging/services.py:324-333 | in place: the cursor and the unread count, or the error and no change |
| MessagingStore.Store.GetOrCreate | apps/messaging/services.py:107-151 | in place: the conversation of the key, opened if there is none, or the error |
| MessagingStore.Store.GetOrCreateDirect | apps/messaging/services.py:154-165 | in place: the direct conversation of two members |
| MessagingStore.Store.RevokeParticipant | apps/messaging/services.py:342-348 | in place: the user's memberships in force are revoked and counted, or the conversation is unknown |
| MessagingStore.Store.CloseContext | apps/messaging/services.py:351-357 | in place: exactly the conversations of the context are closed, and those that were open are counted |
| MessagingProofs.RunSound | apps/messaging/services.py:277-357 | every run keeps logs gapless and free of repeated requests, cursors inside the log, keys unique, and moves nothing backwards |
| MessagingTheorems.EveryLogIsGapless | apps/messaging/services.py:306-319 | numbers are exactly 1 to the last, the last message is the highest, each member and client id has one message, cursors stay inside |
| MessagingTheorems.AcceptedIsStored | apps/messaging/services.py:306-321 | an accepted message is stored under its number with its sender, client id and normalized body |
| MessagingTheorems.RetryReturnsTheMessage | apps/messaging/services.py:297-301 | after any steps, even closing, a repeated request stores nothing and gets its message back, or a conflict when the content differs |
| MessagingEffects.ContentExact | apps/messaging/services.py:280-282 | the content is what stands between the outer spaces of the text with each CR LF or CR read as one LF, and there is none exactly when the text is all spaces |
| MessagingEffects.ContentIsClean | apps/messaging/services.py:280-282 | content has no CR and no space at either end, and a text that is so already is its own content |
| MessagingEffects.BodyExact | apps/messaging/services.py:278-294 | a draft is accepted if and only if it has content of at most 2000 characters without NUL, a well-formed type, data that fits and, as text, no card or images; the body then has the draft's type, card data and images |
| MessagingEffects.AccessExact | apps/messaging/services.py:229-237 | who gets a seat in a conversation, which one, and the error of everybody else |
| MessagingEffects.SendExact | apps/messaging/services.py:295-321 | a client id used before gets its message if and only if the four parts are the same, else a conflict; a new one is refused for a closed conversation, then for a missing peer, else it becomes the next message, and nothing else changes |
| MessagingEffects.SendRefused | apps/messaging/services.py:278-294 | what cannot be sent is refused before anything else is looked at |
| MessagingEffects.SendUnseated | apps/messaging/services.py:229-237 | a sender without a seat gets the error and nothing changes |
| MessagingEffects.RepeatExact | apps/messaging/services.py:297-301 | whatever happened in between, a repeated client id conflicts exactly when one of the four parts differs, and stores nothing |
| MessagingEffects.ReadExact | apps/messaging/services.py:324-333 | a read moves the member's own cursor forward to a position of the log, returns the peer's messages beyond it, and writes nothing else |
| MessagingEffects.ListingExact | apps/messaging/services.py:217-226 | the errors of a listing, and the exact part of the log it returns, upwards or latest first |
| MessagingEffects.PageSizeExact | apps/messaging/api.py:26-28 | twenty items to a page unless one to a hundred are asked for |
| MessagingEffects.OpenRefused | apps/messaging/services.py:107-130 | exactly which participants are refused, with which error |
| MessagingEffects.OpenExact | apps/messaging/services.py:132-145 | a key that is not there is opened at the end, empty, for the two participants, and the actor gets it |
| MessagingEffects.ReopenExact | apps/messaging/services.py:146-151 | a key that is there is answered by its conversation or a conflict, and nothing changes |
| MessagingEffects.DirectExact | apps/messaging/services.py:154-165 | a direct conversation is that of the ordered pair, for members only |
| MessagingEffects.RevocationExact | apps/messaging/services.py:342-348 | exactly the user's memberships are revoked, and those that were in force are counted |
| MessagingEffects.ClosingExact | apps/messaging/services.py:351-357 | exactly the conversations of the context are closed, and those that were open are counted |
| MessagingEffects.EndsForGood | apps/messaging/services.py:342-357 | after a close, a revocation or a deleted account the log of the conversation stays as it was, whatever follows |
| MessagingEffects.EndedOnlyBy | apps/messaging/services.py:342-357 | a conversation has ended after a step exactly when it had before or the step closed it, revoked a member or deleted a member's account |
| MessagingTheorems.NothingAfterTheEnd | apps/messaging/services.py:302-305 | after a close, a revocation or a deleted account no message is ever stored |
| MessagingTheorems.ShownReasonIsTheOutcome | apps/messaging/models.py:40-50 | the shown block reason is exactly what a new message meets |
| MessagingTheorems.UnreadCountsThePeer | apps/messaging/services.py:91-99 | unread is the number of the peer's messages beyond the cursor |
| MessagingTheorems.SendCountsOnceForThePeer | apps/messaging/services.py:306-319 | a new message is one more unread for the peer and none for the sender |
| MessagingTheorems.ReadingMovesForward | apps/messaging/services.py:324-333 | a position is accepted exactly inside the log, no cursor moves back, and reading to the end leaves nothing unread |
| MessagingTheorems.FetchesNext | apps/messaging/services.py:217-226 | a fetch after the highest number seen gets exactly the next messages up to the page size |
| MessagingTheorems.FollowingMissesNothing | apps/messaging/services.py:217-226 | fetches of any page sizes interleaved with any steps read the log from its first message without gap or repeat |
| MessagingTheorems.HistoryPage | apps/base/ninja_pagination.py:28-42 | a first page before a number holds the messages just before it, latest first |
| MessagingTheorems.PagesCutTheListing | apps/base/ninja_pagination.py:28-42 | the pages of any listing one after another are the listing, nothing left out and nothing twice |
| MessagingTheorems.DirectOpens | apps/messaging/services.py:127-150 | the direct conversation someone gets has the pair's key and exactly the two accounts as members |
| MessagingTheorems.OneDirectConversationPerPair | apps/messaging/services.py:127-165 | two accounts share one direct conversation, whoever asks and whenever |
| MessagingTheorems.NormalizedOnce | apps/messaging/services.py:277-294 | sending a stored content again is an identical retry |

## Left out

- LedgerStore.Store.CreateAllocationRequest: does not model the team, the snapshots of names and of the source, remarks, or the field validation of item and share rows (text lengths, decimal widths).
- LedgerStore.Store.ResubmitSnapshot: does not model the conditions on the lease, its client request id and its history, nor the comparison of the earlier snapshot with the lease; what is copied is what the request model holds.
- LedgerStore.Store.SaveRequest: does not model the checks of team, currency and name snapshots.
- LedgerStore.Store.BulkCreate: does not model the currency constraints of the rows.
- LedgerTheorems.MonthlyTotalsAreLive: does not model the order of the rows or the restriction of the query to one user.
- AnalyticsStore.Store.RecordEvent: does not model the validation of event properties and key patterns, nor the branch taken when a concurrent insert wins the unique constraint; recording and purging are sequential steps.
- AnalyticsStore.Store.TargetMetrics: does not model the labels of targets.
- MigrationStore.Store.PreviewBatch: which records have invalid fields beyond missing names, phone numbers and room numbers is a parameter, as are the values of a record; inline landlords and the name and logo of the organization are not modelled.
- MigrationStore.Store.PlanBatch: as PreviewBatch.
- MigrationStore.Store.ExecuteRecord: does not model inline landlords, the name and logo of the organization (no save of these is refused), the recorded media originals or error messages.
- MigrationStore.Store.BusinessRecord: does not model inline landlords, nor the lookup of a landlord that the plan left open, which no plan without an issue does.
- MigrationStore.Store.WorkOn: values other than names, phone numbers, addresses, room numbers, listing and links are named by what they are computed from, not given field by field; whether a save accepts them is a property of the object.
- MigrationStore.Store.CreateFor: the same.
- MigrationStore.Store.OtherRecord: does not model the branch that writes the name and logo of the organization.
- MigrationCompletion.ConfirmedImportOutcome: does not cover packages with inline landlords, where a house also fails when the contact that its inline landlord names is no landlord and a save refuses it as one; and takes a failure of the database itself for a broken transaction.
- MigrationTheorems.WorkAddsOnlyLoggedObjects: leaves out the contact that an inline landlord adds.
- MigrationTheorems.ImportRunsTheConfirmedPlan: leaves out that a stale create which becomes a skip stores its new target in the plan of its record.
- MediaAttach.Field.AttachAsset: models one field of one record; the loop over the fields that use an asset repeats it, and kinds and fields that have no media are not modelled.
- MessagingStore.Store.GetOrCreate: does not model the format checks of namespaces and keys.
- MessagingStore.Store.CloseContext: does not model the format checks of namespaces and keys.
- Text snapshots, remarks and reasons beyond being present or empty (a reason is the trimmed text), rule source, and the width limits of decimal columns.
- Calendars and time zones: the month of a timestamp is a parameter, and days have a fixed length.
- Days, event names and targets are integer tokens, and rows come in the order of first occurrence where the database leaves it open.
- Reading and validating migration packages, uploads, and the validation job's own lease.
- The lease of media downloads: success, failure and retry of an asset are arbitrary steps of the media model.
- `find_sent_message`, listings of conversations and peers, and personal organization totals.
- Permissions, notifications, storage, delivery of tasks, and HTTP.
