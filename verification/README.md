# The energy ledger of the Solis logger, and the cores around it

A Dafny model of the logger's hardest parts, with proofs over every input, run or history.

- **Ledger.** The poller, the aggregator, retention and the offline backfill share one store.
  `Ledger` gives each transaction and each aggregator run as a function on values; `World` puts
  them into a step system in which polls and cleanups fall between an aggregator's capture of the
  watermarks, each of its separate sums, and its write. One global invariant (`World.Inv`) is kept
  by every step (`PollStep`, `CleanupStep`, `RunStep`, `FinishStep`, `BackfillStep`) and yields the
  results in `Conservation`, `Coverage` and `Gap` (which frozen days a run computed, and a history
  that loses one), `OpenRows` (what a run counts for open periods), `Agreement`, `Years`, `Nets` and
  `Rewrites` (what a backfill rewrites). `Transactions`, `Cutover`, `Storage`, `Maintenance`
  and `Compute` are the same operations as loops over mutable state, proved to do what the
  functions say; `MetaTable` covers the persisted copy of the watermarks.
- **Attribution.** `Rollover` is the geometry of the windows, `Attribution` the attributor,
  `Polling` the poll loop as a step system with failed writes, outages and restarts, `PollerLoop`
  the loop itself. `Soundness` and `Completeness` relate stored rows to what the counters really
  counted, in both directions, and `DayCloses` says which day is closed.
  `Integration` relates its steps to the ledger's, and `Joint` puts both over one store: every
  history of the whole application is a history of each.
- **Self-contained cores.** `EventBus` and `BusDrops` (publishers, pump and consumer of one subscription),
  `Supervisor` (restarts of one component), `Blocks` and `Validation` (register table, read plan,
  decoding), `Hub` (per-client diff state).
- `Calendar`, `Plan`, `Energy` and `Registers` are the vocabulary.

Energy is a whole number of 0.1 kWh, so the 10 % rule is `10 * cur < prev`. Days, months and years
are numbers; the bijection with civil dates, and the agreement of number order with the order of
the text keys, are proved in `Calendar`. The empty key is `NONE`.

What is assumed:

- Transactions are atomic and run one at a time; a commit either takes effect or changes nothing.
- The local offset is fixed and the clock does not go back. Captured days lie in the years 1 to
  9998, because text keys stop sorting like the periods at the year 10000.
- An aggregator run captures a day no earlier than that of the last poll, as one clock drives both;
  `Joint.IsLedgerHistory` derives from it what `World` asks of the closed days. A backfill runs with
  the application stopped. At most one run is in progress.
- `Soundness`: between two resets a counter only grows; each window has one reset, common to all
  keys, at or after midnight and before the window ends; and a key that is still on the closing
  day with a positive base after the reset reads below 10 % of that base. The last point concerns
  only a key's first value after the reset, since that value moves the key on
  (`Soundness.FirstValueMovesOn`); `Soundness.WrongDayExactly` says what goes wrong without it.
- The register table does not change between runs.

Four limits of the code that the model makes explicit. After a gap of more than 62 days a run plans
net days from 62 days back on, yet its freezes move the day mark past the days before: such a day
never gets a net row, or keeps the one from before the gap (`Gap.SkippedDayLost`,
`Gap.GapLosesNetDay`; `Coverage.DaysCovered` says exactly which days). Months, years and totals lose
nothing. The key lists of plans and of the cutover also
fail next to the year 9999, where the text order breaks (`Plan.BuildPlan`, `Cutover.WriteCutover`
give the exact condition). For rollover times from 12:00 to 23:00 the window ends before midnight of the
day it opens, so no reset can lie in it (`Soundness.ResetPossible`).
A start inside a window that finds a row of the opening day, but not its closing day closed, leaves
that closing day open until the next rollover (`DayCloses.SeedCloses`, `DayCloses.LateCloseHappens`).

## Model

| member | source | states |
|---|---|---|
| Conservation.Conserved | internal/aggregator/compute.go:144-206 | in every state of every history of polls, cleanups, backfills and single run steps, a total's baseline plus the daily rows still stored after the baseline year equals every accepted day since 1 January of the cutover year |
| Conservation.CountedIsFinalMax | internal/storage/poller_store.go:80-103 | what the ledger counts for a key and day is the largest value any poll had accepted for it, or the one stored at the start |
| Conservation.TotalsNeverDecrease | internal/storage/aggregator_store.go:49-91 | from the first finished run on, no later state holds a lower total row, although a run's sums are read while polls write |
| Coverage.FrozenIsExact | internal/aggregator/compute.go:64-183 | in every reachable state, every month and year after the cutover's mark and up to the freeze mark, and every net day there that no run skipped, has exact rows: accepted daily rows plus the cutover offset, a net row the difference of its parts, missing only after retention removed it |
| Coverage.DaysCovered | internal/aggregation/plan.go:73-104 | in every reachable state a net day between the cutover's mark and the day mark was computed and frozen by a run exactly when no run that advanced the mark left it out |
| Gap.SkippedDayLost | internal/aggregator/compute.go:64-70 | a day an advancing run leaves out ends up below the mark, not computed, its row absent or stale as before |
| Gap.GapLosesNetDay | internal/aggregation/plan.go:73-104 | from any first start with a daily net pair there is a history that leaves a net day below the mark without a row although nothing was deleted |
| Conservation.FrozenIsFinal | internal/storage/aggregator_store.go:93-110 | no sequence of steps without a backfill changes, or brings back, a row of a period at or before its freeze mark, whether a run or the cutover set the mark; only retention may delete it |
| Conservation.SettledDaysAreFinal | internal/storage/poller_store.go:90-92 | the accepted rows of days a key has closed never change again |
| Conservation.NothingSkipped | internal/aggregator/compute.go:130-160 | every month and year between the cutover's mark and the freeze mark was frozen by a run: none was passed over |
| Conservation.NothingDeletedAfterMark | internal/storage/cleanup.go:48-98 | every daily row on or after purgedBefore that was ever accepted is still stored with its value |
| Conservation.NoWriteBeforeMark | internal/storage/cleanup.go:103-133 | no row before purgedBefore can be accepted any more |
| Conservation.BackfillKeepsFrozen | internal/maintenance/backfill.go:274-301 | a backfill rewrites every month and year the live aggregator froze without a cutover offset with the value already stored |
| Conservation.BackfillKeepsBaseline | internal/maintenance/backfill.go:326-346 | the baseline written as one range sum equals the baseline the yearly folds built |
| Conservation.HistoryKeepsInv | internal/storage/aggregator_store.go:165-191 | the global invariant over all watermarks, rows, baseline and the run in progress holds in every state of every history |
| Years.YearIsItsMonths | internal/aggregator/compute.go:165-183 | in every reachable state the row of a frozen year after the cutover year is the sum of the rows of its twelve months, as long as retention kept them |
| Years.BaselineIsItsYears | internal/storage/aggregator_store.go:179-191 | in every reachable state the baseline is the sum of the rows of the years folded into it, when retention kept them and the cutover year carries no offset |
| Years.HistoryInStep | internal/storage/meta.go:185-229 | in every reachable state offsets belong to periods begun by the cutover day, the months of a frozen year are frozen, and the last folded year is the last frozen one or the year before the cutover |
| Agreement.FoldIsTheYearRow | internal/aggregator/compute.go:144-160 | the amount a closing year folds into the baseline is its yearly row without the cutover offset |
| Nets.PeriodNetIsDifference | internal/aggregator/compute.go:165-183 | in every reachable state a stored net row of a frozen month or year is the stored export row minus the stored import row |
| Nets.DayNetIsDifference | internal/aggregator/compute.go:111-127 | in every reachable state a net row of a frozen day that no run skipped is the difference of the two stored counter rows |
| Nets.TotalNetIsDifference | internal/aggregator/compute.go:186-206 | in every state from the first finished run on, all three total rows of a net pair exist and the net one is the difference |
| Agreement.CleanupKeepsRuns | internal/storage/cleanup.go:48-133 | for any retention, a run after a cleanup produces the same rows, freezes and folds as one without it |
| Agreement.RunRowsAccepted | internal/storage/aggregator_store.go:93-127 | a finishing run has no row rejected, whatever polls and cleanups ran since it captured the state |
| PollStep.PollKeepsInv | internal/storage/poller_store.go:44-62 | a poll transaction of any rows and closes keeps the invariant, also while a run is between its reads |
| PollStep.ClosedSumKept | internal/storage/poller_store.go:90-92 | a sum over days a key has closed is the same before and after any poll |
| CleanupStep.CleanupKeepsInv | internal/storage/cleanup.go:48-98 | a cleanup with any cutoff keeps the invariant, also while a run is between its reads |
| CleanupStep.QueriesAreOpen | internal/storage/cleanup.go:103-133 | every sum a run asks for starts on or after the first open day, so no cutoff reaches it |
| CleanupStep.CleanupKeepsQueries | internal/storage/cleanup.go:77-98 | a purge leaves every sum a run asks for as it was |
| CleanupStep.CleanupDeletesExactly | internal/storage/cleanup.go:48-98 | a cleanup that is due deletes exactly the daily, monthly and yearly rows of periods that end before its cutoff; every other row keeps its value |
| RunStep.BeginKeepsInv | internal/aggregator/compute.go:26-46 | capturing the state keeps the invariant, from now on with a run whose captured marks stand until it ends |
| RunStep.ReadIsExact | internal/storage/aggregator_store.go:36-44 | a sum read during a run is the sum of the accepted rows: retention took none of them |
| RunStep.ReadKeepsInv | internal/aggregator/compute.go:96-108 | reading one sum keeps the invariant |
| FinishStep.FinishKeepsInv | internal/storage/aggregator_store.go:49-91 | writing a run's outcome into a store that moved on since the capture keeps the invariant |
| FinishStep.TotalBounds | internal/aggregator/compute.go:186-206 | a written total lies between what was accepted when the run began and what is accepted now |
| FinishStep.FreezingSettles | internal/aggregator/compute.go:210-227 | every period a run freezes ends up exact |
| FinishStep.FreezesLeaveNoGap | internal/aggregation/plan.go:106-150 | when a mark advances, every period up to the new mark was frozen by that run |
| OpenRows.OpenPeriodsAreCounted | internal/aggregation/plan.go:85-150 | after every finished run of every history, each month and year after its mark up to the captured one has the row of every edge, which counts each day of the period through the captured day: at least what was accepted when the run began and at most what is accepted at the write, plus the offset; each net row is the difference of its two rows; the same for each net day after the mark, of the last 62 |
| OpenRows.MarkReaches | internal/aggregation/plan.go:130-150 | after a run a month or year is at or before its mark exactly when it was before, or every key had closed its last day |
| OpenRows.DayMarkMoves | internal/aggregation/plan.go:85-104 | after a run the day mark is the lowest closed day if that lies after it and among the last 62 days, and unchanged otherwise |
| FinishRows.FoldsAddUp | internal/aggregator/compute.go:144-160 | folding the closed years one by one equals one sum over all of them |
| FinishRows.FoldIsNext | internal/aggregator/compute.go:153-157 | a folded year follows directly on the last folded one |
| FinishRows.FreezesAdvance | internal/storage/aggregator_store.go:165-176 | a freeze mark ends at the later of itself and the latest freeze, and nothing else of the state changes |
| FinishRows.BatchesFrame | internal/storage/aggregator_store.go:93-110 | rows of frozen periods and of keys outside the domain are left alone by any computed write |
| BackfillStep.CutoverMakesInv | internal/storage/meta.go:185-229 | the first start establishes the invariant from any rows |
| BackfillStep.BackfillAgrees | internal/maintenance/backfill.go:274-301 | every value recomputed for a frozen period without an offset equals its stored row |
| BackfillStep.BaselineAgrees | internal/maintenance/backfill.go:326-363 | the range sum written for a total is present and equals its folded baseline |
| BackfillStep.BackfillKeepsInv | internal/maintenance/backfill.go:160-216 | a backfill of any number of years back to the year 1, refused or not, keeps the invariant |
| Storage.Store.WritePoll | internal/storage/poller_store.go:19-142 | a committed poll applies the max-writes, then the status rows, then the closes, and reports exactly the rejected ones in that order; a failed one changes neither rows, table nor memory |
| Storage.Store.WriteComputed | internal/storage/aggregator_store.go:49-91 | a committed write applies rows, then freezes, then folds, and reports exactly the rejected rows; a failed one changes nothing |
| Storage.Store.CleanupPeriods | internal/storage/cleanup.go:48-72 | deletes exactly what lies before the earlier of the wanted day and the first open day, moves the purge mark only when a daily row was lost, and counts the deleted rows |
| Storage.Store.EarliestOpenDay | internal/storage/cleanup.go:103-133 | the minimum of the four next open days, none while a mark is not set |
| Storage.Store.ClosedThrough | internal/storage/meta.go:351-363 | the lowest closed day over all daily keys, none as soon as one key has closed nothing |
| Storage.Store.EnsureCutover | internal/storage/meta.go:162-175 | the first start writes the cutover once; every later one finds it; a failed one changes nothing |
| Transactions.WriteDaily | internal/storage/poller_store.go:80-103 | a max-write, or the first of unknown key, write domain and closed period that applies |
| Transactions.CloseDay | internal/storage/poller_store.go:125-142 | the closed day only moves forward, and its table row with it |
| Transactions.WriteComputedRow | internal/storage/aggregator_store.go:93-127 | replaces the row, or reports why it may not |
| Transactions.FoldYear | internal/storage/aggregator_store.go:179-191 | adds a year once and keeps every baseline row equal to its value in memory |
| Transactions.PurgePeriods | internal/storage/cleanup.go:77-98 | the three deletes remove exactly the purged cells and tell whether a daily row was lost |
| Transactions.DailyError | internal/storage/poller_store.go:80-92 | a row is rejected exactly when it is not the poller's or its day is closed |
| Transactions.LastChangeStays | internal/storage/poller_store.go:105-122 | the status log holds the last accepted change of each key and time, and is unchanged elsewhere |
| Transactions.ComputedError | internal/storage/aggregator_store.go:93-127 | a computed row is rejected exactly when it is outside the domain or its period is frozen |
| Cutover.WriteCutover | internal/storage/meta.go:185-229 | marks, offsets and day marks of a first start; fails exactly when the key list runs past the year 9999 |
| Cutover.OpenPeriodContinues | internal/storage/meta.go:233-317 | after the first start the daily sum of an open month or year plus its offset is the value stored before where that is ahead, and the plain sum otherwise |
| Cutover.WriteOffsets | internal/storage/meta.go:238-317 | exactly the positive differences of the open months and years are recorded, in memory and in the table |
| Cutover.WriteMarks | internal/storage/meta.go:185-217 | the cutover day and the three freeze marks relative to two days before it |
| Cutover.CloseAll | internal/storage/meta.go:319-332 | every daily key has closed at least the last closed day |
| MetaTable.NameDecodes | internal/storage/meta.go:96-136 | the prefixed key of every slot decodes back to that slot, whatever the register key |
| MetaTable.NameUnique | internal/storage/meta.go:16-26 | no two slots share a text key |
| MetaTable.OffsetTextUnique | internal/storage/interfaces.go:169-171 | an offset key determines level, period and register key |
| MetaTable.PutAgrees | internal/storage/meta.go:138-145 | writing a row and its field together keeps table and memory in agreement |
| MetaTable.DeleteAgrees | internal/storage/backfill.go:111-121 | clearing an offset in table and memory keeps them in agreement |
| MetaTable.Load | internal/storage/meta.go:70-136 | fails exactly when an amount row is not a number; otherwise, in whatever order the rows come, every slot is found with its stored value |
| MetaTable.AgreedIsFound | internal/storage/meta.go:70-93 | a table in agreement with the state in memory loads as that state |
| Compute.ComputePlan | internal/aggregator/compute.go:26-54 | the four steps ask exactly the sums of the plan and write exactly what those sums give |
| Compute.Execute | internal/aggregator/compute.go:26-62 | a committed run turns the store, as it is by then, into what the captured state and the read sums say; it fails exactly on a commit failure or a plan past the year 9999 |
| Compute.ListedRowsApply | internal/storage/aggregator_store.go:70-80 | rows written in map order end up the same in every order within a period |
| Compute.RunState.YearRuns | internal/aggregator/compute.go:144-160 | year values, freezes, asked sums, folds and the running baseline of a whole job list |
| Compute.RunState.LevelRun | internal/aggregator/compute.go:165-183 | edge sums with their offsets, net values from those, and the raw sums without offsets |
| Compute.RunState.TotalRun | internal/aggregator/compute.go:186-206 | totals from the baseline after the folds and the rows after the last folded year |
| Compute.RunState.Collect | internal/aggregator/compute.go:210-227 | one row per value in map order, and the freeze |
| Energy.EdgesApplied | internal/aggregation/aggregation.go:31-37 | every target holds its source's sum, a missing sum counts as 0, and nothing else is produced |
| Energy.NetApplied | internal/aggregation/aggregation.go:41-51 | every pair with both parts yields their difference, and nothing else is produced |
| Energy.TotalsApplied | internal/aggregation/aggregation.go:55-61 | every total is its baseline plus its source's rows since then |
| Energy.Fold | internal/aggregation/aggregation.go:64-73 | key by key addition without losing a key of either side, in any order |
| Energy.AddOffsets | internal/aggregation/aggregation.go:78-84 | each value gets its own offset; no key is created |
| Maintenance.RunBackfill | internal/maintenance/backfill.go:107-140 | the whole job commits or nothing changes; it commits exactly when it would sum no deleted day, starts in the year 1 or later, and the commit succeeds |
| Maintenance.BackfillTx.Recompute | internal/maintenance/backfill.go:160-190 | for any number of years: refused over deleted days, failed on a year before the year 1, or the years rewritten oldest first and then the baseline |
| Rewrites.BackfillRewrites | internal/maintenance/backfill.go:160-307 | an accepted backfill visits exactly the current year and the given number of years before it with all their months up to the current one; each one the daily rows reach back to has every edge row equal to its plain daily sum up to today, every net row equal to the difference, and no offset left; every other row and offset, daily rows and totals included, is unchanged |
| Rewrites.BaselineRewritten | internal/maintenance/backfill.go:326-363 | when it touches a closed year and a year since the cutover was folded, each total's baseline becomes the sum from 1 January of the cutover year through the last folded year; otherwise the baseline is unchanged |
| Maintenance.BackfillTx.CheckPurged | internal/maintenance/backfill.go:196-216 | for any number of years, refused exactly when the oldest year, or the baseline range of a job that touches a closed year, starts before the purge mark |
| Maintenance.BackfillTx.RecomputePeriod | internal/maintenance/backfill.go:274-307 | a period is rewritten from pure daily sums unless the daily rows start after it |
| Maintenance.BackfillTx.RecomputeYear | internal/maintenance/backfill.go:228-264 | all twelve months up to the current one, then the year, with the effect BackfillRewrites states; a year before the year 1 fails before anything is written |
| Maintenance.BackfillTx.RefreshBaseline | internal/maintenance/backfill.go:326-363 | the baseline is replaced only when a year since the cutover has been folded |
| Maintenance.BackfillTx.PutPeriod | internal/storage/backfill.go:91-121 | writes past the freeze marks, drops the row's offset, refuses foreign keys |
| Maintenance.BackfillTx.PutBaseline | internal/storage/backfill.go:141-149 | replaces the given baseline values; the baseline year stays |
| Maintenance.BackfillTx.FirstDailyDay | internal/storage/backfill.go:131-139 | the oldest daily row: the history reaches a day exactly when it lies on or after it |
| Plan.BuildPlan | internal/aggregation/plan.go:54-150 | the plan of all open periods, with the bounds and freezes of PlanExact, JobCounts and NetDaysPartition; fails exactly when a watermark drives the key list past the year 9999 |
| Plan.PlanExact | internal/aggregation/plan.go:85-129 | month, year and day jobs are exactly the open periods, ascending and contiguous, the ones to freeze first |
| Plan.JobCounts | internal/aggregation/plan.go:85-150 | a job counts exactly the days of its period up to the captured one, and freezes exactly when every key has closed every day of the period |
| Plan.NetDaysPartition | internal/aggregation/plan.go:73-104 | at most 62 net days; with the skipped range they cover every day after the mark up to today, none twice |
| Calendar.StepBetween | internal/period/period.go:166-177 | the keys between two keys in order; terminates, and fails exactly when the text order breaks at the year 10000 |
| Calendar.Gregorian | internal/period/period.go:129-135 | the recursive calendar agrees with the closed Gregorian day count |
| Calendar.CivilBijection | internal/period/period.go:14-18 | day numbers and civil dates are in bijection |
| Calendar.MonthArithmetic | internal/period/period.go:120-144 | bounds and shifts of a month key |
| Calendar.YearArithmetic | internal/period/period.go:129-153 | bounds and shifts of a year key |
| Calendar.AddDays | internal/period/period.go:111-117 | adding days to a key is adding to its number |
| Calendar.DayKeyOrder | internal/period/period.go:14-18 | day keys of four-digit years compare as text like the days they name |
| Calendar.MonthKeyOrder | internal/period/period.go:14-18 | month keys compare as text like the months, and are all seven characters |
| Calendar.DayKeyPrefixes | internal/storage/cleanup.go:77-83 | the first seven and four characters of a day key are its month and year keys |
| Calendar.FiveDigitYearSortsEarly | internal/period/period.go:166-177 | the key after 9999 sorts before it, which is why five-digit years are outside the ledger |
| Rollover.WindowUnique | internal/period/rollover.go:96-116 | at most one window contains an instant |
| Rollover.WindowAt | internal/period/rollover.go:119-127 | finds the window containing now exactly when there is one |
| Rollover.LastEnded | internal/period/rollover.go:131-140 | returns the latest window that has ended; the fallback after the loop is never reached |
| Rollover.InsideWindow | internal/period/rollover.go:101-140 | inside a window the expected day is the closing one, closing is not after today, and today is the opening day exactly from midnight on |
| Rollover.DaysAdvance | internal/period/rollover.go:119-140 | expected and reachable days never go back, and a day stops being only reachable when its window ends |
| Rollover.ReachableByTomorrow | internal/period/rollover.go:101-116 | no key can be open beyond tomorrow |
| Rollover.ParseRollover | internal/period/rollover.go:42-76 | accepts exactly the strict HH:MM texts, and the accepted time prints as its text |
| Rollover.TextParses | internal/period/rollover.go:42-76 | every rollover time has a text that is accepted and gives its hour and minute |
| Attribution.DayAttributor.Attribute | internal/poller/attribution.go:145-222 | the state of the one key, the shared confirmation and the decision of Attribution.AttributedKey, which DiscardedExactly, EveryRowIsTrue and MovedIsClosed characterise |
| Attribution.DayAttributor.Seed | internal/poller/attribution.go:85-121 | every key is rebuilt from its own rows and watermark in any key order; exactly the missed closes are returned |
| Attribution.DayAttributor.ForceClose | internal/poller/attribution.go:126-141 | exactly the keys behind the expected day move to it with no base, and each closes through the day before |
| Attribution.DayAttributor.BlindReset | internal/poller/attribution.go:171-185 | a key that cannot see the reset follows a confirmed one and closes the day it leaves (MovedIsClosed), is held from midnight on otherwise, and is left to the normal rules in every other case |
| Attribution.DayAttributor.DecreaseInWindow | internal/poller/attribution.go:209-222 | a decrease confirms the reset, and closes the day it leaves (MovedIsClosed), exactly on the closing day when it is substantial or already confirmed |
| Soundness.EveryRowIsTrue | internal/poller/attribution.go:126-222 | when resets are visible, every row sent in any history lies on the day its counter was counting, with the counter's value |
| Soundness.NoRowExceedsItsDay | internal/poller/attribution.go:126-222 | no stored row exceeds what its counter reached on that day |
| Soundness.WrongDayExactly | internal/poller/attribution.go:145-185 | a value goes to a wrong day exactly when its key was left on the closing day with a positive base that the value reaches again after the reset |
| Soundness.WrongDayHappens | internal/poller/attribution.go:145-185 | it does happen: a key closing day 9 at 100 that reads 100 again half an hour into day 10 is written to day 9 |
| Soundness.FirstValueMovesOn | internal/poller/attribution.go:209-222 | the first visible value after a reset moves its key to the opening day and confirms the reset |
| Soundness.TrueDayIs | internal/period/rollover.go:78-94 | with one reset per window there is exactly one day the counters are counting |
| Soundness.ResetPossible | internal/period/rollover.go:78-116 | a window reaches past its opening day's midnight for every rollover time but 12:00 to 23:00 |
| Completeness.DiscardedExactly | internal/poller/attribution.go:145-222 | a true value whose reset is visible is discarded exactly when its key is on the closing day of the current window with no positive base, midnight has passed and no key has confirmed the reset |
| Completeness.EveryReadingIsStored | internal/poller/cycle.go:79-177 | in every history with true readings, every value of a poller key a committed poll reads is stored on its true day with at least the counter's value, unless it is held for that reason |
| Completeness.DayReachesItsReadings | internal/storage/poller_store.go:80-103 | in every later state the row of that day still holds at least the value, until the day is closed and retention removed the row |
| Polling.NeverRejected | internal/poller/cycle.go:79-177 | every row a poll sends is above every day closed for its key and no earlier than any stored row of it, across failed writes, outages and restarts |
| Polling.HistoryOk | internal/poller/attribution.go:126-162 | in every reachable state each key's open day is the expected or the reachable one, above its stored and pending closes and its rows |
| Polling.ClosedDaysAdvance | internal/storage/poller_store.go:125-142 | closed days never go back |
| Polling.ClosedByToday | internal/poller/cycle.go:111-129 | no closed day lies beyond the calendar day of the last poll |
| DayCloses.MovedIsClosed | internal/poller/cycle.go:108-171 | in every history, since a key's open day last changed by a value or a forced close, exactly the day before the open one is closed or pending, until a restart; after a committed poll or outage write it is closed in the store |
| DayCloses.EveryDayIsClosed | internal/poller/attribution.go:85-141 | restarts and missed closes included: from a start without rows ahead of the closes, every key that has closed or is closing any day has closed, or is closing, exactly the day before its open one; a committed write stores it |
| DayCloses.SeedCloses | internal/poller/attribution.go:85-121 | a start leaves a key that never closed a day alone, and takes up any other key's closes correctly exactly unless, inside a window, the opening day has a stored row while the closing day is not closed |
| DayCloses.LateCloseHappens | internal/poller/attribution.go:85-121 | a concrete store for which it does not: the key is open on day 10 and day 9 stays unclosed |
| Polling.RestartTransparent | internal/poller/attribution.go:85-141 | while every write committed, a restart rebuilds the open day, base and current confirmation the running attributor has after its forced close |
| Polling.RestartSendsTheSame | internal/poller/poller.go:234-254 | the first poll after such a restart sends the rows it would have sent without it |
| Integration.LedgerStepsAreOthers | internal/storage/poller_store.go:80-142 | no cleanup, run step or backfill moves a closed day or touches a stored row of a counter's open days, which is all the poll loop relies on |
| Integration.PollsAreLedgerSteps | internal/poller/cycle.go:132-142 | a committed poll of the loop is a poll step of the ledger, and the ledger accepts every row of it |
| Joint.IsLedgerHistory | internal/aggregator/compute.go:26-46 | every history of poll loop, runs, retention and backfills over one store is a ledger history: a run whose day is no earlier than the last poll's finds no day closed beyond it |
| Joint.IsLoopHistory | internal/poller/cycle.go:79-177 | and it is a history of the poll loop, to which everything else is other writers |
| Joint.Conserved | internal/aggregator/compute.go:144-206 | conservation in every state of the whole application |
| PollerLoop.Poller.Persist | internal/poller/cycle.go:79-91 | one poll takes exactly the step of the system the theorems are about, writing the pending closes in some order |
| PollerLoop.Poller.CloseDisconnected | internal/poller/cycle.go:96-108 | an outage still writes exactly the closes that are due |
| PollerLoop.Poller.Seed | internal/poller/poller.go:234-254 | a new process starts in the seeded state with the missed closes pending |
| PollerLoop.Poller.Write | internal/poller/cycle.go:132-142 | a committed write drops the pending closes, a failed one keeps them |
| EventBus.RunKeepsInv | internal/eventbus/eventbus.go:133-204 | in every run: per publisher, what was not dropped is received, queued or in flight exactly once and in order; only ValuesUpdated events of a coalescing subscription are dropped (DroppedAreRefused says when); queued events always have a wake-up coming |
| EventBus.StepKeepsWake | internal/eventbus/eventbus.go:160-204 | a non-empty overflow implies a pending kick, a draining pump or a publisher between append and kick |
| EventBus.QuietMeansDelivered | internal/eventbus/eventbus.go:147-204 | once nothing but a new publish can happen, the consumer has received every event that was not dropped, each publisher's in order |
| EventBus.StepProgresses | internal/eventbus/eventbus.go:172-204 | every step but a publish brings the system closer to that point |
| BusDrops.DroppedAreRefused | internal/eventbus/eventbus.go:147-170 | in every run the dropped events are exactly the ValuesUpdated sent on a coalescing subscription to a full channel, or published while the overflow was not empty |
| BusDrops.UncongestedArrives | internal/eventbus/eventbus.go:147-158 | an event published while nothing was queued and sent while the channel has room is in the channel at once, and in every later state there or received, behind everything sent before |
| Blocks.PlanBlocks | internal/solis/registry.go:323-339 | in wrapping 16-bit arithmetic: blocks as long as the limits allow, disjoint, within limit and address space, holding every register, and no more of them than any split within the limits has |
| Blocks.JoinsExactly | internal/solis/registry.go:326-334 | the wrapping test joins a register exactly when the longer block fits, also when its end wraps to 0 |
| Blocks.FewestBlocks | internal/solis/registry.go:323-339 | no split that respects the limits has fewer blocks |
| Blocks.PlanCovers | internal/solis/registry.go:323-339 | blocks are in order, disjoint, within the limit and the address space, and hold every register whole |
| Blocks.DecodeBlock | internal/solis/decoder.go:63-80 | exactly the registers wholly inside the read words are decoded, each to the value of its own words, also when the read is cut short |
| Blocks.ReadThroughPlan | internal/poller/cycle.go:15-42 | reading and decoding all planned blocks yields exactly the polled keys, each with the value of the words at its own address |
| Blocks.DecodeEncode | internal/solis/decoder.go:152-186 | every value of every integer type survives encoding into words and decoding |
| Blocks.HighWordFirst | internal/solis/decoder.go:188-190 | 32-bit values order like their words, the first word first |
| Blocks.SignedIsTwosComplement | internal/solis/decoder.go:160-170 | signed values lie in their range and agree with the unsigned ones modulo the word size |
| Validation.NewRegistry | internal/solis/registry.go:58-77 | a table is accepted exactly when it is well formed; then it is the registry, lookup and read order the other modules rely on |
| Validation.Index | internal/solis/registry.go:84-124 | an indexed table has sound registers, unique keys and unique addresses; a refused one is not well formed; the overlap check that follows is ValidateOverlaps |
| Validation.NeighboursSuffice | internal/solis/registry.go:137-146 | in address order, disjoint neighbours are the same as pairwise disjoint registers |
| Validation.CountDefinitions | internal/solis/registry.go:185-224 | fails exactly on an invalid edge or pair; otherwise counts the definitions of every key |
| Validation.ValidateComputed | internal/solis/registry.go:170-182 | accepts exactly when every computed register has one definition |
| Validation.ValidateTotalSources | internal/solis/registry.go:154-166 | accepts exactly when every source of a total also feeds a yearly value |
| Validation.RegistryValid | internal/solis/registry.go:154-224 | an accepted table gives every target one definition, every computed key an edge, and every net key a pair |
| Supervisor.RunSafe | internal/health/supervisor.go:140-269 | in every run up to its final stop: at most one instance not ended, Stop at most once per instance, at most three restarts in a row, starts a sweep apart, a latch has cancelled the application |
| Supervisor.NothingAfterCancel | internal/health/supervisor.go:140-191 | after a latch or a cancel nothing is started or stopped by a sweep any more |
| Supervisor.StaleReportIgnored | internal/health/managed.go:48-58 | once an instance has been replaced, its reports change nothing in any later state of a run |
| Supervisor.GenerationsAdvance | internal/health/managed.go:30-39 | generations never go back in a run |
| Supervisor.SweepActsExactly | internal/health/managed.go:78-102 | in every run, a sweep replaces the instance or cancels the application exactly when the component is down (no instance, a failure, or silence beyond the grace of its state) and a sweep interval has passed since its last start |
| Supervisor.FailureIsActedOn | internal/health/managed.go:48-88 | a failure the current instance reports makes the first sweep that is due replace it or cancel the application, however healthy it claims to be |
| Supervisor.RecoveryRestoresBudget | internal/health/managed.go:103-116 | a component that has recovered is given up only after three more restarts, or when a Stop does not end in time |
| Supervisor.SilenceIsFatal | internal/health/supervisor.go:163-191 | a component that never beats has brought the application down by a fixed time |
| Supervisor.ExactlyThreeRestarts | internal/health/supervisor.go:171-191 | it does so with its fourth instance, unless a Stop timed out before |
| Supervisor.BeatingIsLeftAlone | internal/health/managed.go:78-122 | a component that is healthy and beats within its graces at every sweep is never touched |
| Supervisor.Managed.Evaluate | internal/health/managed.go:78-108 | asks for a restart exactly on failure or silence beyond the grace; clears the failure count only for a proven instance |
| Supervisor.Managed.Sweep | internal/health/supervisor.go:140-184 | one entry of a sweep: restart when needed and due, otherwise only the failure count may change |
| Hub.Hub.Flush | internal/websocket/hub.go:320-330 | every client whose values changed is sent exactly one frame and stays exactly when its buffer takes it, every other client is sent nothing and stays; afterwards every client holds exactly the current values of its keys, and replaying its frames gives what the hub recorded |
| Hub.Hub.Handle | internal/websocket/hub.go:256-284 | the client stays exactly when its buffer takes every answer, with the subscriptions and the record the command gives; replay and record stay equal and no other client is touched |
| Hub.Hub.SubscribeKeys | internal/websocket/hub.go:288-317 | known keys are added once and the new ones are answered with their current values; only a full buffer disconnects |
| Hub.Diff | internal/websocket/hub.go:333-353 | exactly the changed values and the vanished keys, and the new record |
| Hub.DiffApplies | internal/websocket/hub.go:333-353 | applying the diff to the old record gives the new one; an empty diff means nothing changed |

## Left out

- SQL, SQLite files, WAL, VACUUM, backups, migrations and locks: the tables are maps and a transaction is one step; a commit that fails after persisting is not modelled.
- Floating point and the text form of numbers: sums are exact integers, Float32 registers keep their bit pattern, amounts in the meta table are numbers.
- Status registers: which status values changed since they were last stored, and the retention of their rows; both are independent of the ledger.
- The cache, the warning texts of discarded values, and the bounded memory of days already announced as closed.
- Publishing from inside a poll: the event bus is modelled for one subscription, before close or unsubscribe, with publishers that each deliver one event at a time.
- `--force` backfills and the printed report.
- Malformed period keys in the store: period numbers are always valid periods.
- Daylight-saving changes, zone changes and backward clock jumps.
- Modbus transport, retries, HTTP, configuration, logging and the frontend.
- The snapshot the supervisor publishes and its watched, non-restartable parts; several components share only the cancelled context, so one entry is modelled.
- The hub's JSON, timers, stale-client sweep and stop: a client that leaves takes its state with it.
- Blocks.DecodeBlock: a Float32 value is its bit pattern times the scale, and status codes have no names, because neither decides which words a register is decoded from.
- Supervisor.SilenceIsFatal: states that the application is cancelled by the bound; ExactlyThreeRestarts says by which instance.
