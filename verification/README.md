# Verified models of Docket's core

Docket is an offline-first ledger: every device writes to its own tables and operation log,
and devices exchange sealed batches of operations through storage that offers only list, get
and put. These Dafny modules model the logic that has to be right for that to work, and
prove it for all inputs and all runs.

**Replication.** `Hlc` (hybrid logical clock and its text form), `ObjectNames`, `Oplog` (what a
set of operations means, merge), `Ledger` (one device's invariant, the push backlog),
`LedgerService` (the service as a class with mutable tables, log and clock), `Replication` (any
number of devices and the shared store as a state machine with a step for every point a crash
can separate), `Runs` (what holds of whole runs), `Reachability`, `SyncService` (whole pulls and
pushes as methods, shown to be runs of that machine), `Refusals` and `RefusedRest` (the same
against a store that will not overwrite, and when it can still come to rest) and `Snapshots`.
Two ghost sets, what each device has learnt and what anyone has authored, let the invariant say
more than the log can, since merge drops stale operations; no step reads them. The main theorem
is `Runs.Convergence`.

**Calendar.** `Calendar` (day numbers, shifts by days and clamped months, date texts), `Periods`
(budget windows), `Spend` (rollover), `Schedules` (recurring occurrences), `History` (what the
log says a rule has made), `Materialiser` (bounded, resumable runs through the ledger),
`CatchUp` (any sequence of runs, skips and edits), `SharedRules` (rules and occurrences on
several devices), `Statements` (card cycles). Dates are civil dates; JavaScript's `Date` is not
visible, so adding days is defined by stepping through the calendar and proved to be arithmetic
on day numbers (ECMAScript's `DayFromYear`). `Calendar.FormatOrder` is why the program may
compare date texts.

**Fast code against a plain definition.** `Reports` (net worth in one sweep, monthly flow), `Csv`
(the reader's state machine and the writer), `ObjectStore` and `FSStore` (the server's file
store with its usage cache and crash leftovers), `Paging` (the client's listing loop).
`Orders` and `Text` hold sorting and string order; `Domain` the shared entities.

Where the source loops or updates fields, the model is a method or a class, proved against a
specification function; the properties are then proved of those functions.

Where code and comments disagree, the code is modelled. A comment says that an object named at
or below a snapshot's watermark holds nothing the snapshot has not said
(`app/src/app/core/sync/sync.service.ts:173-174`); `Snapshots.CoveredButMissed` gives a case
where it does. One in the server says that a client that crashed between writing and recording
must be able to retry (`server/internal/storage/fsstore.go:69-71`); as the client seals anew, its
retry has other bytes, and `Refusals` says when that stops it. Another says that a gap behind the
materialiser's watermark is checked for
(`app/src/app/core/recurring/materialiser.service.ts:73-75`); by `Histories.GapIsLost` dates
behind it are never reached, and `Histories.MovedStartLeavesAGap` gives a case. A skip is said to
survive on other devices because it replicates as an edit of the rule
(`app/src/app/core/recurring/materialiser.service.ts:89-91`); it survives exactly while the
winning edit lists it, and `SharedRules.SkipIsLost` gives a run in which it does not.

## Model

| member | source | states |
|---|---|---|
| `Runs.Convergence` | app/src/app/core/sync/sync.service.ts:159-221 | After every run over any set of devices, interleaving writes, deletes, every step of pulling and pushing, failures and crashes: if nothing is pending and every device has seen every object, every device's tables are the highest-stamped write per key of everything ever authored |
| `Runs.RunKeeps` | app/src/app/core/sync/sync.service.ts:158-396 | The system invariant holds after every run from any state that satisfies it |
| `Runs.StepKeeps` | app/src/app/core/sync/sync.service.ts:158-396 | Each single step keeps it: own operations stay logged, a synced one is in the store, a seen object is known, tables are the meaning of what is known, one stamp is one write |
| `Replication.UploadIsStable` | app/src/app/core/sync/sync.service.ts:375-391 | An upload under a name that is already taken writes the same operations again, also when the first was made before a crash and more was written since |
| `Runs.NamesKeepTheirBatches` | app/src/app/core/sync/sync.service.ts:375-391 | Throughout every run a name in the store keeps its batch, whoever writes, crashes or retries |
| `Replication.LocalWriteIsNew` | app/src/app/core/repositories/ledger.service.ts:45-87 | A local stamp was never authored before by any device, so a stamp keeps identifying one write |
| `Runs.QuiescentKnowsAll` | app/src/app/core/sync/sync.service.ts:159-221 | At rest each device knows exactly everything authored, not just what its log kept |
| `Reachability.ConvergenceIsReachable` | app/src/app/core/sync/sync.service.ts:159-221 | From every state of every run some continuation without local writes ends at rest with all tables equal to the meaning of everything authored, so the premise of convergence can always be met |
| `Reachability.PullCatchesUp` | app/src/app/core/sync/sync.service.ts:159-221 | A pull succeeds, leaves no object unseen and nothing pending that was not, whenever every head it downloads is at most 3,600,000 ms ahead of its reading and the counters of clock and heads have room, up to 65,535, for as many counts as there are heads |
| `Reachability.PullByClockAhead` | app/src/app/core/sync/sync.service.ts:159-221 | So does a pull whose clock reads ahead of every stamp in the store, whatever the counters |
| `Reachability.Drain` | app/src/app/core/sync/sync.service.ts:368-396 | Repeated pushes empty a device's backlog, whatever its size |
| `SyncServices.SyncService.Push` | app/src/app/core/sync/sync.service.ts:368-396 | Its effect on ledger, seen names and store is that of the protocol's push steps without interruption; it sends the first 5000 pending operations exactly the rest stay pending, and the store gains exactly one object per batch of them |
| `SyncServices.SyncService.Pull` | app/src/app/core/sync/sync.service.ts:159-221 | From any heads: what it leaves of ledger, clock and seen names, and the count merging applied or the failure it reports, are those of the pull specified on the heads' texts, a refused or malformed one ending it with the clock's progress kept |
| `SyncServices.PullTextsIsPull` | app/src/app/core/sync/sync.service.ts:195-221 | That pull is the protocol's pull steps without interruption, where the heads' texts read back |
| `SyncServices.PullCountsNewStamps` | app/src/app/core/sync/sync.service.ts:215-220 | What a pull reports is how many more stamps the log holds after it; one that fails leaves tables and log alone |
| `Reachability.PullReportsNew` | app/src/app/core/sync/sync.service.ts:215-220 | So it is for every device in every state of the protocol |
| `SyncServices.PushIsARun` | app/src/app/core/sync/sync.service.ts:368-396 | A whole push is a run of steps, so every theorem about runs covers it |
| `SyncServices.PullIsARun` | app/src/app/core/sync/sync.service.ts:159-221 | A whole pull is a run of steps |
| `SyncServices.BatchesPartition` | app/src/app/core/sync/sync.service.ts:375-376 | Batches have 1 to 500 operations, only the last is short, and concatenated they are the queue |
| `SyncServices.BatchHeadsAscend` | app/src/app/core/sync/sync.service.ts:379-385 | The head is the highest stamp of its batch, and heads strictly ascend from batch to batch |
| `SyncServices.PushStores` | app/src/app/core/sync/sync.service.ts:368-396 | One push leaves the store as before plus exactly one object per batch of what it sends, each under the batch's head |
| `SyncServices.SendAllStores` | app/src/app/core/sync/sync.service.ts:375-391 | So does sending any queue in stamp order |
| `Refusals.RefusingRunKeeps` | server/internal/storage/fsstore.go:72-79 | Against a store that refuses other bytes under a name it holds, every run keeps the system invariant |
| `Refusals.RefusingConvergence` | server/internal/storage/fsstore.go:72-79 | Every quiescent state such a run reaches has all tables equal to the meaning of everything authored |
| `Refusals.PushGoesOn` | server/internal/storage/fsstore.go:72-79 | A push then changes nothing at all if the next batch is already stored, and otherwise sends exactly that batch |
| `Refusals.NextWriteFrees` | app/src/app/core/sync/sync.service.ts:375-391 | A device stuck that way is freed by its next local write if and only if fewer than 500 operations are pending |
| `Refusals.CrashAfterUploadWedges` | app/src/app/core/sync/sync.service.ts:385-391 | A crash after uploading a full batch and before recording it leaves the device stuck with 500 pending |
| `Refusals.WedgedForGood` | app/src/app/core/sync/sync.service.ts:375-391 | From there no run of any devices brings the system to rest again |
| `RefusedRests.StuckFromTheStart` | app/src/app/core/sync/sync.service.ts:385-391 | A run from the start, of a write, an upload and a crash, after which the device is stuck |
| `RefusedRests.WedgedFromTheStart` | app/src/app/core/sync/sync.service.ts:385-391 | A run from the start, of 500 writes, an upload and a crash, after which the device is wedged |
| `RefusedRests.RestIsReachableUnlessWedged` | app/src/app/core/sync/sync.service.ts:368-396 | From any state of any run against the refusing store some continuation ends at rest if and only if no device is wedged |
| `Oplog.MergeReflects` | app/src/app/core/repositories/ledger.service.ts:96-134 | Merging a batch takes the tables to the meaning of everything known before plus exactly the batch's well-formed operations |
| `Oplog.MergeIsAJoin` | app/src/app/core/repositories/ledger.service.ts:96-134 | Two sequences of merges that deliver the same operations, in any order, batching or repetition, leave the same tables |
| `Oplog.MergeIsIdempotent` | app/src/app/core/repositories/ledger.service.ts:89-95 | Merging the same batch again applies 0 operations and leaves tables and log as they were |
| `Oplog.MergeCountsNewStamps` | app/src/app/core/repositories/ledger.service.ts:96-134 | The number a merge answers is how many more stamps the log holds after it |
| `Oplog.DeleteIsNotUndone` | app/src/app/core/repositories/ledger.service.ts:66-71 | A deleted key stays absent whatever operations not above the tombstone are merged |
| `Oplog.DeletedUntilNewerPut` | app/src/app/core/repositories/ledger.service.ts:96-134 | A deleted key has a row again after a merge if and only if the newest merged write to it is a put stamped above the tombstone |
| `Oplog.WinningStampRises` | app/src/app/core/repositories/ledger.service.ts:112-128 | No merge lowers the stamp that decides a key, in the log or in what is known |
| `Oplog.TablesAgreeWithLog` | app/src/app/core/repositories/ledger.service.ts:96-134 | The tables are the highest-stamped write per key of the log alone, although merge drops stale operations from the log |
| `Oplog.HighestDecides` | app/src/app/core/repositories/ledger.service.ts:112-121 | An operation above all others of its key decides that key, and no other key changes |
| `Ledgers.LocalWriteWins` | app/src/app/core/repositories/ledger.service.ts:45-87 | A local put or delete is stamped above everything known, decides its key, leaves every other row alone and keeps the ledger invariant |
| `Ledgers.ObserveKeepsInv` | app/src/app/core/sync/sync.service.ts:212-214 | Observing heads keeps the invariant, also where the clock refuses one, and reaches everything they bound if it goes through |
| `Ledgers.MergeKeepsInv` | app/src/app/core/sync/sync.service.ts:215-215 | Merging operations the running clock has reached keeps the invariant, whatever was written since the heads were observed |
| `Ledgers.RestartKeepsInv` | app/src/app/core/repositories/ledger.service.ts:34-37 | The saved clock is enough: after a restart the clock still dominates everything known |
| `Ledgers.BacklogUnique` | app/src/app/core/repositories/ledger.service.ts:146-148 | The backlog in stamp order is determined by which entries are unsent |
| `Ledgers.BacklogAfterWrite` | app/src/app/core/repositories/ledger.service.ts:45-87 | A local write is appended at the end of the backlog |
| `Ledgers.BacklogAfterMark` | app/src/app/core/repositories/ledger.service.ts:150-156 | Marking the first n pending operations leaves exactly the others pending, in order |
| `Ledgers.MergeKeepsBacklog` | app/src/app/core/repositories/ledger.service.ts:126-126 | Merging what others wrote never changes the backlog |
| `LedgerServices.LedgerService.constructor` | app/src/app/core/repositories/ledger.service.ts:34-37 | Opening a stored database yields the ledger a restart of the device would |
| `LedgerServices.LedgerService.Put` | app/src/app/core/repositories/ledger.service.ts:45-64 | State after a put, or unchanged state when the counter overflows, is that of the specified local write |
| `LedgerServices.LedgerService.Remove` | app/src/app/core/repositories/ledger.service.ts:71-87 | Likewise for a delete: the row goes and an unsent tombstone is logged |
| `LedgerServices.LedgerService.Merge` | app/src/app/core/repositories/ledger.service.ts:96-134 | Its loop over the mutable tables and log computes the specified merge and count; where what is merged comes from one vault, the answer is how many more stamps the log holds |
| `LedgerServices.LedgerService.LatestStampFor` | app/src/app/core/repositories/ledger.service.ts:202-215 | The greatest stamp logged for the key; none exactly if the key was never logged |
| `LedgerServices.LedgerService.HasHistory` | app/src/app/core/repositories/ledger.service.ts:166-168 | True exactly if the key was ever logged, deletions included |
| `LedgerServices.LedgerService.LatestEntityIdWithPrefix` | app/src/app/core/repositories/ledger.service.ts:177-191 | The greatest id ever logged in the prefix range; none exactly if there is none |
| `LedgerServices.RangeIsPrefix` | app/src/app/core/repositories/ledger.service.ts:180-182 | The index range is exactly the ids carrying the prefix, for ids whose characters are below U+FFFF |
| `LedgerServices.StaleByLatest` | app/src/app/core/repositories/ledger.service.ts:113-114 | Comparing with the one latest stamp decides staleness against the whole log |
| `LedgerServices.LedgerService.ObserveStamps` | app/src/app/core/repositories/ledger.service.ts:140-143 | Folds every text into the clock in turn, and stops at the first that is refused or no stamp, with the progress made |
| `LedgerServices.LedgerService.PendingOperations` | app/src/app/core/repositories/ledger.service.ts:146-148 | The unsent operations in stamp order, cut at the limit |
| `LedgerServices.LedgerService.MarkSynced` | app/src/app/core/repositories/ledger.service.ts:150-156 | Exactly the named entries that exist become synced |
| `Hlc.TickDominates` | app/src/app/core/util/hlc.ts:68-76 | A stamp issued comes after every stamp the clock had reached, and the clock then reaches it |
| `Hlc.TickIsLeast` | app/src/app/core/util/hlc.ts:68-76 | A tick takes the earliest clock state that is after the clock and not behind the reading, and fails exactly if its counter is above 65,535 |
| `Hlc.ObserveDominates` | app/src/app/core/util/hlc.ts:79-102 | An accepted stamp is reached, and observing never moves the clock back |
| `Hlc.ObserveIsLeast` | app/src/app/core/util/hlc.ts:79-102 | A remote stamp is accepted if and only if it is at most 3,600,000 ms ahead of the reading and the earliest clock state that is after clock and stamp and not behind the reading has a counter of at most 65,535; the clock then takes that state |
| `Hlc.ObserveAllDominates` | app/src/app/core/repositories/ledger.service.ts:140-143 | After a fold of stamps every one of them is reached, and a refused fold still did not move back |
| `Hlc.ObserveAllAccepts` | app/src/app/core/repositories/ledger.service.ts:140-143 | A fold of stamps each within the hour of its reading goes through if the counters have room for as many counts as stamps |
| `Hlc.DecodeEncode` | app/src/app/core/util/hlc.ts:35-49 | Decoding inverts encoding for physical below 10^19, counter up to 0xffff and a non-empty alphanumeric device |
| `Text.ParseHexReadsOn` | app/src/app/core/util/hlc.ts:48-48 | The counter field is read as `parseInt(s, 16)` reads it: the digits up to the first other character, also behind a plus sign or `0x` |
| `Text.ParseHexOfFirst` | app/src/app/core/util/hlc.ts:48-48 | White space in front is skipped, capitals count, and a text that begins otherwise is no number |
| `Hlc.ObserveTextsOfStamps` | app/src/app/core/repositories/ledger.service.ts:140-143 | Observing the texts of stamps is observing the stamps |
| `Hlc.EncodeOrder` | app/src/app/core/util/hlc.ts:112-114 | Comparing stamp texts is comparing (physical, counter, device), and texts are equal only for equal stamps |
| `Hlc.HybridLogicalClock.TickStamp` | app/src/app/core/util/hlc.ts:68-76 | Issues the text of the new state, or refuses at counter overflow with the state unchanged |
| `Hlc.HybridLogicalClock.ObserveStamp` | app/src/app/core/util/hlc.ts:79-102 | Reads the text and advances, or refuses malformed stamps, drift over an hour and overflow, with the state unchanged, as `ObserveIsLeast` says |
| `ObjectNames.NameGivesStampBack` | app/src/app/core/sync/sync-target.ts:89-118 | The stamp read back from an operations or snapshot object name is the one it was built from, for any vault id |
| `ObjectNames.StampsAreNamed` | app/src/app/core/sync/sync-target.ts:105-118 | The names that give a stamp are exactly those that end on a slash, a stamp-shaped text and the suffix |
| `ObjectNames.NameOrder` | app/src/app/core/sync/sync-target.ts:89-91 | Object names of one vault sort exactly as their stamps do |
| `ObjectNames.ServerAcceptsOpsOnly` | server/internal/storage/storage.go:71-87 | The server accepts every operations name a client with a device id of at most 32 characters builds, and no snapshot name |
| `ObjectNames.ValidNamesAreOpsNames` | server/internal/storage/storage.go:71-87 | The server accepts exactly the names put together from a vault id of 1 to 64 letters, digits and dashes, 19 digits, 4 hexadecimal digits and a device id of 1 to 32 letters and digits; its other two checks refuse nothing more |
| `Snapshots.SnapshotEquivalence` | app/src/app/core/sync/sync.service.ts:250-269 | A fresh device that applies a snapshot shows the writer's rows; after any further operations it still agrees with the writer if and only if none of them is the newest put of a key and older than a delete that stands at the writer |
| `Snapshots.AfterWatermarkIsSafe` | app/src/app/core/sync/sync.service.ts:173-176 | Operations stamped after the watermark never meet that condition |
| `Snapshots.SkippingIsHarmless` | app/src/app/core/sync/sync.service.ts:170-186 | Skipping a batch unread leaves the right rows if and only if none of its newest operations per key is above what is known and would change a row |
| `Snapshots.CoveredByStamp` | app/src/app/core/sync/sync.service.ts:63-66 | A batch's name is covered if and only if its head, its newest stamp, is at or below the watermark |
| `Snapshots.SplitListing` | app/src/app/core/sync/sync.service.ts:166-177 | Of a listing, what is covered and what is to be downloaded, seen names left out, in order |
| `Snapshots.JoiningAndSkipping` | app/src/app/core/sync/sync.service.ts:159-221 | A fresh device that applies a snapshot and skips a batch shows the right rows if and only if no newest operation of the batch is missed |
| `Snapshots.CoveredButMissed` | app/src/app/core/sync/sync.service.ts:173-176 | A concrete snapshot and late batch: the batch's name is covered by the watermark, and a device that joins from the snapshot and skips it never has its row |
| `Snapshots.SnapshotForgetsDeletes` | app/src/app/core/sync/sync.service.ts:304-318 | A concrete delete and stale put: after the same merge the device that joined from the snapshot has the row and the writer has not |
| `Snapshots.Rebuild` | app/src/app/core/sync/sync.service.ts:253-266 | The rebuilt operations are exactly the rows listed, as puts under their own stamps |
| `Snapshots.BuildSnapshot` | app/src/app/core/sync/sync.service.ts:294-318 | A snapshot is produced exactly at 200 operations past the last; it lists exactly the rows, under the greatest logged stamp |
| `Calendar.DayFromYear` | app/src/app/core/util/dates.ts:40-49 | The days before a year, counted year by year, agree for every year with the closed form in ECMAScript |
| `Calendar.DayNumberIsUtc` | app/src/app/core/util/dates.ts:40-49 | A day number is ECMAScript's closed form: days before the year, the month's start in the literal table 0, 31, 59, ..., 334, one more from March on in leap years, and the day |
| `Calendar.AddDaysNumber` | app/src/app/core/util/dates.ts:40-49 | Stepping from day to day reaches the date whose day number is the one `Date.UTC` is given |
| `Calendar.DayNumberOrder` | app/src/app/core/cards/statement.ts:178-182 | Day numbers order dates and identify them |
| `Calendar.AddDaysIsAnAction` | app/src/app/core/util/dates.ts:40-49 | Identity, composition, strict monotonicity both ways, and the number of days between a date and its shift is the shift |
| `Calendar.AddDaysReaches` | app/src/app/core/cards/statement.ts:178-182 | Shifting by the days between two dates goes from one to the other |
| `Calendar.AddMonthsLands` | app/src/app/core/util/dates.ts:58-65 | Lands in the exact target month on the same day, or on the last where that month is shorter, keeps the month count's strict order, and zero months is the identity |
| `Calendar.DayBeforeNextMonth` | app/src/app/core/util/dates.ts:68-70 | The length of a month is the day before the first of the next |
| `Calendar.ParseFormat` | app/src/app/core/util/dates.ts:72-80 | Parsing inverts formatting for years 0 to 9999 |
| `Calendar.FormatOrder` | app/src/app/core/util/dates.ts:125-127 | Comparing date texts is comparing dates for years 0 to 9999 |
| `Periods.WindowFor` | app/src/app/core/budgets/period.ts:70-78 | None exactly before the start; else the one window that contains the date, found with at most one decrement and no increment |
| `Periods.WindowsTile` | app/src/app/core/budgets/period.ts:70-83 | Every date from the start is in exactly one window over all integer indices, and the estimate is that index or one more |
| `Periods.WindowsAreAdjacent` | app/src/app/core/budgets/period.ts:80-83 | A window is never empty and ends the day before the next begins, clamped months included |
| `Periods.WindowIsUnique` | app/src/app/core/budgets/period.ts:80-83 | No date lies in two windows |
| `Periods.EstimateIsClose` | app/src/app/core/budgets/period.ts:107-117 | The estimate is never negative and is right or one too high |
| `Periods.WindowStartAscends` | app/src/app/core/budgets/period.ts:55-60 | Windows start in strict index order, and window 0 on the start date |
| `Periods.WindowStartsWhere` | app/src/app/core/budgets/period.ts:55-60 | Window i starts 7i days after the anchor and lasts seven days, or starts i months or i years after it on the anchor's day or the last of a shorter month |
| `Spend.SpendDetail` | app/src/app/core/budgets/spend.ts:75-93 | The sum over the counted, converted transactions of the window, and the number of those not converted |
| `Spend.OnlyCoveredExpensesCount` | app/src/app/core/budgets/spend.ts:46-55 | One transaction more adds its converted value to what is spent, or one to what is unconverted, if and only if it is an expense dated in the range whose category is covered, or in the budget's own list where no cover is given; income, transfers and uncategorised ones change neither |
| `Spend.SpendingAddsUp` | app/src/app/core/budgets/spend.ts:84-91 | Spending of two adjoining ranges adds up to that of their union |
| `Spend.WindowsTelescope` | app/src/app/core/budgets/spend.ts:111-116 | Spending of the first n windows is that of the one range from the start to the end of the last |
| `Spend.CarriedInto` | app/src/app/core/budgets/spend.ts:103-118 | The carry is index limits less all spending from the start to the end of the window before; 0 without rollover |
| `Spend.ProgressFor` | app/src/app/core/budgets/spend.ts:121-149 | With rollover what remains in period k is k + 1 limits less all counted spending from the start to the end of window k; none exactly before the start |
| `Spend.CountedOnce` | app/src/app/core/budgets/spend.ts:113-116 | Every transaction dated from the start to the end of window k is in exactly one window, of index 0 to k |
| `Schedules.OccurrencesUpTo` | app/src/app/core/recurring/schedule.ts:74-98 | The first `limit` dates past `after` of the unlimited scan; nothing for an interval or limit below 1 |
| `Schedules.ScheduleIsExact` | app/src/app/core/recurring/schedule.ts:61-98 | The unlimited result ascends strictly and holds exactly the unskipped due occurrences within the limits and the scan bound |
| `Schedules.ScheduleMeans` | app/src/app/core/recurring/schedule.ts:39-98 | Exactly the unskipped dates by `asOf` and by the rule's end on which one of its first 25,000 occurrences, within its count, falls by day numbers and month counts: so many days, weeks of seven days, months or years from the start |
| `Schedules.OccurrenceFallsOn` | app/src/app/core/recurring/schedule.ts:39-53 | Occurrence n is the one date so many steps from the start by day number, or by month on the start's day or the last of a shorter month |
| `Schedules.ChunkedIsOneShot` | app/src/app/core/recurring/schedule.ts:64-67 | Repeated calls with any positive limits, each resumed after the last date returned, concatenate to a beginning of the unlimited result, and to all of it after enough calls |
| `Schedules.ResumeYieldsRest` | app/src/app/core/recurring/schedule.ts:90-90 | Resuming after the nth scheduled date yields exactly the rest |
| `Schedules.DueIsDownward` | app/src/app/core/recurring/schedule.ts:87-88 | No occurrence is due after one that is not, so breaking off the scan loses nothing |
| `Schedules.OccurrenceIdFaithful` | app/src/app/core/recurring/schedule.ts:125-133 | An id gives back its date and any rule id that is one non-empty line, ids of a rule sort by date, and different dates have different ids |
| `Schedules.OccurrenceIdsAre` | app/src/app/core/recurring/schedule.ts:129-133 | The ids read as occurrences are exactly a non-empty one-line rule id, a colon and a date text |
| `Histories.ResumeIsExact` | app/src/app/core/recurring/materialiser.service.ts:59-68 | Resuming from the furthest logged occurrence finds exactly what was never logged if and only if everything due up to there has history; and no date up to there is returned by any later scan |
| `Histories.GapIsLost` | app/src/app/core/recurring/materialiser.service.ts:59-68 | A due date behind the furthest logged occurrence that has no history stays missing, and no scan from there returns it |
| `Histories.MovedStartLeavesAGap` | app/src/app/core/recurring/materialiser.service.ts:59-68 | A concrete gap: a monthly rule that made 15 January is moved to start on 15 November; November is due, has no history, and is never scanned again |
| `Histories.ResumeFindsMissing` | app/src/app/core/recurring/materialiser.service.ts:59-68 | For a rule without gaps what is next is exactly what is missing |
| `Histories.NextIs` | app/src/app/core/recurring/materialiser.service.ts:62-68 | What a run makes next for a rule, gaps or none: in order, exactly the dates due past the furthest ever logged, and none of them has history |
| `Histories.NextAfter` | app/src/app/core/recurring/schedule.ts:85-98 | Making the next n due by one date makes the next n due by every earlier date, gaps or none |
| `Histories.StillNoGap` | app/src/app/core/recurring/materialiser.service.ts:58-81 | Making any number of the next occurrences in order opens no gap |
| `Histories.NoHistoryIsReady` | app/src/app/core/recurring/materialiser.service.ts:62-66 | A rule that was never materialised has no gaps, whatever other rules have logged |
| `Materialisers.MaterialiserService.Furthest` | app/src/app/core/recurring/materialiser.service.ts:62-66 | The latest date this rule ever logged, deletions included; none exactly if there is none |
| `Histories.ToTransactionPays` | app/src/app/core/recurring/materialiser.service.ts:110-131 | The row written for a date is dated that day, with the rule's kind, amount, currency, accounts, category, note and tags, no rate, not cleared, paid to the trimmed payee or, where that is empty, to the rule's name |
| `Materialisers.MaterialiserService.Consider` | app/src/app/core/recurring/materialiser.service.ts:71-80 | Writes the rule's payment on that date, field by field as `Histories.PaysFor` lists it, exactly if its id has no history and the clock gives a stamp; otherwise changes nothing, the clock included |
| `Materialisers.WriteExtendsHistory` | app/src/app/core/repositories/ledger.service.ts:45-87 | A put or remove adds its key to the log's history, sets or clears its row, and touches no other key |
| `Materialisers.MaterialiserService.RunRule` | app/src/app/core/recurring/materialiser.service.ts:58-81 | Logs the next occurrences in order, each with the row of the rule's payment on its date, up to the limit; it falls short of it only if the clock refuses the next write a stamp, which takes a counter that had, with the writes made, used up its range; rows of keys that had history, deleted ones included, are as before |
| `Materialisers.MaterialiserService.Run` | app/src/app/core/recurring/materialiser.service.ts:49-84 | Every live rule, with gaps or without, has made the first n of what was next for it, each row the rule's payment on its date. The run reports success exactly if n is the goal of each, and otherwise the clock refuses the next write a stamp, its counter used up. Nothing else is new in the log, every row that had history or still has none is as before, deleted ones included; nothing next leaves the database as it was; `created` counts the new keys and `incomplete` names exactly the rules that reached the limit |
| `Materialisers.ArchivedRulesRest` | app/src/app/core/recurring/materialiser.service.ts:53-58 | An archived rule makes nothing in a run; every other rule makes what is next for it as far as the run gets |
| `Materialisers.MaterialiserService.Skip` | app/src/app/core/recurring/materialiser.service.ts:93-106 | Succeeds exactly if the clock gives a stamp for each write needed. Then the rule lists the date, the transaction is gone and no other row changes; a repeated skip changes nothing; refused at its second write it leaves the date listed and the transaction in place |
| `Materialisers.SkipCutShortStays` | app/src/app/core/recurring/materialiser.service.ts:95-105 | After a skip cut short every later skip of the date reports success, changes nothing, and the transaction is still there |
| `Materialisers.SkippedIsNeverMissing` | app/src/app/core/recurring/materialiser.service.ts:86-92 | A rule that lists a date as skipped is not missing it at any date |
| `CatchUps.CatchUp` | app/src/app/core/recurring/materialiser.service.ts:49-84 | From no history of a rule, after any sequence of runs at any dates and limits, complete or refused, of skips and of edits to anything but this rule, other rules and their gaps included: what is logged is a beginning of the schedule at every date, nothing off the schedule is logged, and once the complete runs at or after a date were allowed as many as are due, all are logged |
| `CatchUps.RunWithRoomIsComplete` | app/src/app/core/recurring/materialiser.service.ts:49-84 | A run whose due occurrences fit the clock's remaining counter is complete, whatever the time source reads |
| `CatchUps.MissingWearsOff` | app/src/app/core/recurring/materialiser.service.ts:49-84 | For a rule with no gap to begin with: it keeps its terms, gets no gap, and what it is missing by any date is at most what it was less what the complete runs at or after that date may make |
| `CatchUps.RunTakesOff` | app/src/app/core/recurring/materialiser.service.ts:58-81 | A complete run takes its limit off the front of what comes next for every live rule, at its date and at every earlier one |
| `CatchUps.DeletedStaysDeleted` | app/src/app/core/recurring/materialiser.service.ts:72-76 | On one device, a key that has history and no row stays without one through all runs, skips and edits that do not put it again |
| `CatchUps.RowsStayAsLeft` | app/src/app/core/recurring/materialiser.service.ts:71-80 | A row with history that is neither edited nor skipped is never changed by any run |
| `CatchUps.RepeatedRuns` | app/src/app/core/recurring/materialiser.service.ts:49-84 | Complete runs at one date make exactly the first of what was next for any rule; where it has no gap they leave nothing missing if and only if their limits together cover it |
| `Histories.LoggedIsAPrefix` | app/src/app/core/recurring/materialiser.service.ts:59-68 | Of a rule without gaps the log holds at every date exactly the beginning of the schedule of length due less missing |
| `SharedRules.MergedDevicesStayReady` | app/src/app/core/recurring/schedule.ts:117-124 | Two devices materialised a rule and one merges at least what it lacks of the other: an occurrence has history exactly if it had on either, and the rule still has no gaps |
| `SharedRules.EveryLedgerIsOk` | app/src/app/core/recurring/materialiser.service.ts:42-42 | What the materialiser asks of a ledger holds of every device at every moment of every run of the protocol |
| `SharedRules.SkippedExactlyIfWinnerLists` | app/src/app/core/recurring/materialiser.service.ts:86-92 | At rest, on every device, a date is skipped if and only if the winning write to the rule lists it |
| `SharedRules.MissingAtRest` | app/src/app/core/recurring/materialiser.service.ts:58-81 | At rest, on every device, a rule is missing exactly the dates due on its schedule that its winning write does not list and that no device ever wrote an occurrence for |
| `SharedRules.SkipIsLost` | app/src/app/core/recurring/materialiser.service.ts:86-92 | A run of two devices: one skips a date, the other edits the rule before hearing of it, and at rest no device skips the date and all are missing it |
| `SharedRules.DeletedComesBack` | app/src/app/core/recurring/materialiser.service.ts:72-76 | A run of two devices: one makes an occurrence and deletes it, the other makes it before hearing of that, and at rest all devices have it |
| `SharedRules.LateWritePrevails` | app/src/app/core/repositories/ledger.service.ts:96-134 | After any run a write by a clock ahead of every stamp shows on all devices once at rest, which a continuation reaches |
| `Statements.LastStatementIsGreatest` | app/src/app/core/cards/statement.ts:32-42 | Over all months, the greatest clamped closing date not after `asOf` |
| `Statements.DueDateIsLeast` | app/src/app/core/cards/statement.ts:53-61 | Over all months, the least clamped due date strictly after the close |
| `Statements.DayInMonthLands` | app/src/app/core/cards/statement.ts:15-18 | The day asked for in that month, or its last where it is shorter; a day below 1 is the first |
| `Statements.BalanceAsOf` | app/src/app/core/cards/statement.ts:123-130 | Opening balance plus the effects dated up to the day |
| `Statements.OneMoreTransaction` | app/src/app/core/util/money.ts:75-85 | One transaction more, if dated by the day: income raises its account by the amount, an expense lowers it, a transfer lowers the account it leaves and raises the one it reaches; no other account moves |
| `Statements.TransfersBalance` | app/src/app/core/util/money.ts:75-85 | A transfer between two accounts leaves the sum of their balances as it was |
| `Statements.EffectsSince` | app/src/app/core/cards/statement.ts:148-159 | Effects up to a later day are those up to an earlier one plus payments and spending between |
| `Statements.SummariseStatement` | app/src/app/core/cards/statement.ts:138-169 | Owed now is the statement balance less payments since the close plus spending since; the bill is never negative and falls due after the close |
| `Reports.NetWorthOver` | app/src/app/core/reports/aggregate.ts:144-181 | Each point of the single pass is the opening plus every delta dated up to its cutoff, one point per listed month |
| `Reports.OpeningsAddUp` | app/src/app/core/reports/aggregate.ts:156-162 | The opening of several accounts is the sum of theirs, an account without a rate adding nothing |
| `Reports.NetWorthMoves` | app/src/app/core/reports/aggregate.ts:164-181 | One transaction more, if converted and dated by the cutoff: income raises net worth by its value, an expense lowers it, a transfer leaves it |
| `Reports.PointsDifferByFlow` | app/src/app/core/reports/aggregate.ts:144-181 | Consecutive points differ by the net flow of the later month |
| `Reports.FlowByMonth` | app/src/app/core/reports/aggregate.ts:109-134 | One bucket per listed month in order, holding the converted income, expense and net of exactly that month within the range |
| `Reports.OneMoreFlows` | app/src/app/core/reports/aggregate.ts:109-134 | One transaction more adds its converted value to the income or expense of its month's bucket and of the totals, if dated in the range, and to nothing else; a transfer adds to neither |
| `Reports.TotalsFor` | app/src/app/core/reports/aggregate.ts:215-233 | Sums of converted income and expense in the range, transfers on neither side |
| `Reports.BucketsSumToTotals` | app/src/app/core/reports/aggregate.ts:109-134 | The buckets sum to the totals up to the last listed cutoff, which is the range's end if and only if the range touches at most 1,200 months |
| `Reports.MonthsIn` | app/src/app/core/util/dates.ts:88-110 | Every month from first to last, in order, at most 1,200; none for a reversed range |
| `Reports.MonthsAreListed` | app/src/app/core/util/dates.ts:88-110 | The months listed are consecutive and are exactly those from the range's first to its last among the first 1,200 |
| `Reports.TotalOfSort` | app/src/app/core/reports/aggregate.ts:164-165 | A total does not depend on the ledger's order, ties in date included |
| `Reports.CutoffMeans` | app/src/app/core/reports/aggregate.ts:272-279 | A date is by the i-th cutoff exactly if it is in the range's end and in one of the first months |
| `Csv.ParseCsv` | app/src/app/core/import/csv-parse.ts:12-79 | The index-driven state machine computes the reader defined by recursion on the text, byte-order mark stripped |
| `Csv.LineEndsAlike` | app/src/app/core/import/csv-parse.ts:64-70 | Outside quotes CR LF, LF and CR end a row alike, and a byte-order mark in front is not read |
| `Csv.QuoteInsideField` | app/src/app/core/import/csv-parse.ts:54-60 | A quote in a field that has begun is data |
| `Csv.RoundTrip` | app/src/app/core/import/csv-parse.ts:12-79 | Reading a written table gives back every guarded cell if and only if no row is empty or a single empty cell and the text does not begin with a bare byte-order mark; without such a mark, exactly the rows that are not blank come back |
| `Csv.ReadPrinted` | app/src/app/core/reports/csv.ts:36-39 | Reading printed rows gives back every row that is not a blank line |
| `Csv.ReadField` | app/src/app/core/reports/csv.ts:22-33 | A printed field, quoted or not, reads back as its text wherever it stands |
| `Csv.GuardAddsOneQuote` | app/src/app/core/reports/csv.ts:26-29 | The formula guard adds one leading quote exactly to texts that begin with one of the six formula characters, leaves every other text alone, and no guarded text begins like a formula |
| `Csv.QuotedIfNeeded` | app/src/app/core/reports/csv.ts:22-33 | A cell is put in quotes if and only if it has a comma, a quote or a line break; a missing one is empty |
| `Csv.OneMoreRow` | app/src/app/core/reports/csv.ts:36-39 | The text of a table is its header line and, for each row, CR, LF and its line |
| `Csv.OneMoreCell` | app/src/app/core/reports/csv.ts:36-39 | A line is its cells with commas between |
| `ObjectStores.AccountingHolds` | server/internal/storage/fsstore.go:256-289 | Over every run of uploads, deletes, usage requests and crashes from an empty store, a cached usage is the true byte total and objects never exceed a positive quota |
| `ObjectStores.AccountsAreIsolated` | server/internal/storage/fsstore.go:270-281 | Requests on other accounts never change an account's objects or leftovers |
| `ObjectStores.FirstBytesStay` | server/internal/storage/fsstore.go:72-83 | A name keeps its first bytes until a delete of that name |
| `ObjectStores.PutIsImmutable` | server/internal/storage/fsstore.go:72-83 | After a success the same bytes are accepted without change and any others are refused |
| `ObjectStores.PutAnswers` | server/internal/storage/fsstore.go:53-126 | An upload succeeds if and only if names are valid, it is not cancelled, and the name is new and the account's true occupation leaves room, or holds these bytes already; each refusal is given exactly in its case |
| `ObjectStores.PutStores` | server/internal/storage/fsstore.go:53-126 | A success stores the bytes under the name; nothing else of the account changes, and nothing at all of its files on a refusal |
| `ObjectStores.DeleteFrees` | server/internal/storage/fsstore.go:156-178 | A valid delete that is not cancelled succeeds, leaves exactly the other names and frees the bytes |
| `ObjectStores.CrashOccupies` | server/internal/storage/fsstore.go:256-289 | What an upload that died left behind counts as occupied |
| `ObjectStores.MeasureCaches` | server/internal/storage/fsstore.go:256-289 | Asking for the usage answers what is truly occupied, remembers it and changes nothing else |
| `FSStores.FSStore.Put` | server/internal/storage/fsstore.go:53-126 | New files, cache and outcome are those specified, the order of the checks included |
| `FSStores.FSStore.Get` | server/internal/storage/fsstore.go:129-147 | The bytes stored; not found exactly for a valid name that is absent |
| `FSStores.FSStore.Delete` | server/internal/storage/fsstore.go:156-178 | New files and cache are those specified; an absent name is a success |
| `FSStores.FSStore.Measure` | server/internal/storage/fsstore.go:256-289 | The cached figure, or the sum of every file walked, which is then cached |
| `FSStores.FSStore.List` | server/internal/storage/fsstore.go:183-246 | The page defined on the sorted matching names, each with its size, and the cursor to go on from; a cancelled request fails where the account has a directory |
| `Paging.PageIsExact` | server/internal/storage/fsstore.go:238-245 | A page holds exactly the matching names up to its cursor, ascending; without a cursor it holds all |
| `ObjectStores.PageHasLength` | server/internal/storage/fsstore.go:183-246 | A page has all matching names up to the limit, or up to 1,000 without a positive one, and a cursor if and only if there are more |
| `ObjectStores.BeginningsAreListable` | server/internal/storage/storage.go:91-108 | Whatever a stored name begins with is accepted as a prefix |
| `Paging.PagingIsExactlyOnce` | app/src/app/core/sync/adapters/server.adapter.ts:21-41 | With any additions and deletions between pages the result ascends strictly, holds only names that were there at some request, and when complete holds every one that was there at all of them |
| `Paging.FixedStoreListsAll` | app/src/app/core/sync/adapters/server.adapter.ts:27-38 | On a fixed store the requests end, and give the whole listing |
| `Paging.ListAll` | app/src/app/core/sync/adapters/server.adapter.ts:21-41 | The loop with its final sort returns the whole sorted listing, or the server's refusal |

## Left out

- Snapshots inside whole runs: `Replication` has no snapshot or prune step, because a fresh device skips covered objects unread and convergence then fails; `Snapshots.SkippingIsHarmless` and `Snapshots.SnapshotEquivalence` say exactly when it does not.
- Malformed rows in a downloaded snapshot, and the last-snapshot marker the reader stores.
- Encryption: sealing and opening are taken to round-trip, so a batch is its contents; objects of another vault sharing the destination are not modelled.
- Sealing itself: `Refusals` takes it that sealing a batch again never gives the same bytes, and does not compose the byte-level store with the protocol otherwise.
- Interleaving inside one `put` or `remove`: the clock's tick and the transaction are one step, and every database transaction is atomic.
- Two sync cycles of one device at the same time (two tabs), and uploads of one account racing: operations on one device or account follow one another.
- Clock readings are parameters, one for each place the source reads the time.
- Hlc.HybridLogicalClock.ObserveStamp: refuses texts whose physical field is not plain digits, where the source's `Number` reads a sign, an exponent, a prefix or nothing at all and may obtain NaN, and texts whose counter `parseInt` cannot read, where it obtains NaN.
- SyncServices.SyncService.Pull: a head is the text of some stamp, well-formed or not; a header holding any other text is not modelled, nor is what reads a header.
- Calls before `initialise`, and the `Error` texts.
- Years outside 0 to 9999 in date texts, JavaScript's remapping of two-digit years, negative month counts before year 0, and dates of the right shape that name no day (2024-02-31).
- UTF-16: texts are sequences of characters, lone surrogates are not treated.
- Materialisers.MaterialiserService.Run: asks that rule ids are one non-empty line without a colon, as generated ids are, that rules start in a year of four digits and that no other transaction id carries a rule's prefix. Gaps, which editing a start or interval can cause, are allowed: `Histories.GapIsLost` says what becomes of them.
- The order in which rules are visited by a run, which the database decides.
- Currency conversion is a parameter that gives an amount or nothing; rates, rounding and the clamped percentage `share` are absent.
- `nextOccurrence`, `spendByCategory`, `topPayees`, `unconvertedIn`, `isDueSoon`, `availableCredit`, `staleCategoryIds` and header guessing: single loops or expressions.
- CatchUps.CatchUp: no edit between the runs is of the rule itself, and none makes a new id in a rule's range; merges have their own theorems in `SharedRules`.
- ETags, modification times in listings, I/O errors of the file system and the HTTP layer.
- `Usage` running beside an upload of the same account: it is one atomic request here.
- Numbers are unbounded integers; amounts beyond 2^53 and file totals beyond 2^63 are not treated.
