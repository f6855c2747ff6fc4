# agent-lb, modelled and proved

agent-lb balances coding agents over subscription accounts: it forwards their traffic, meters
their quota, routes and reserves seats for their jobs, and keeps the request log. This project
models the parts of it whose guarantees run over whole runs or several functions, in Dafny, and
proves those guarantees. `dafny verify dfyconfig.toml` checks everything.

| part | modules |
|---|---|
| Request log retention: archive, delete by day, restore | `RetentionPolicy`, `RetentionApply`, `RetentionRun`, `RetentionTotals`, `RetentionRemoval`, `RetentionRestore`, `RetentionRoundTrip`, `RetentionCycle`, `RetentionCases` |
| Quota accounting and reports | `QuotaAllocation`, `IntervalAttribution`, `Proportion`, `RollUp`, `TokenReport`, `CountRepair`, `WeightedMedian`, `LoopDetector` |
| Routing and reservations | `LadderWalk`, `Reservations`, `ReserveWalk`, `DispatchSelect` |
| Feedback | `QuotaMode`, `EventLog`, `DecisionIndex`, `Collecting`, `Outcomes` |
| Shim | `Tunnel`, `ActivityRegistry`, `Watchdog` |
| Shared helpers | `Options`, `Ordering`, `Picking` |

How the original is read:

- Quantities that the code keeps as floats are reals, so shares and remainders are exact. Times are
  integers (seconds) or reals. Dictionaries are maps, or sequences of distinct entries where their
  order matters. Tables are maps by primary key; checksums are equality of content.
- Objects and files that the code changes in place are classes with the same fields; loops stay
  loops. Specification functions say what the loops compute, and lemmas say what that means.
- Concurrency is interleaving at the points where the code holds no lock or no transaction: other
  sessions insert request rows between the statements of apply and restore (`Database.Arrive`),
  accounts are removed between the days of an apply run (`RetentionRun.Removals`), requests of any
  clients interleave at the registry lock (`ActivityRegistry.Run`), calls reach the tunnel bucket in
  lock order, and other jobs use the reservation store between any two requests
  (`Store.Interfere`). A request to that store or its reply may be lost.
- Answers of code outside the model (pools, leases, models, seats, labels, random draws) are
  functions or arbitrary values, so every answer is covered.

## What the proofs found

- A request count can become negative. The integer repair puts the whole rounding error on the
  largest count: fifteen requests split evenly over ten agents give one agent -3
  (`CountRepair.EvenSplitGoesNegative`, exact condition in `CountRepair.NegativeExactly`).
- The day's delete and its mark in the manifest are separate steps. After a crash between them a
  restore removes that day's rollup rows but does not load its rows; reported totals survive a
  restore exactly when every deleted day is marked (`RetentionRoundTrip.RestoreKeepsTotals`; a run in
  which they do not is `RetentionCases.CrashBeforeMark`). A restore that dies between its commit and
  the manifest cannot be repeated: the keys are taken (`RetentionRestore.RepeatAfterInterrupt`).
- Rows that arrive late can change totals: an insert that replaces an archived row between the
  rollup and the delete, or afterwards, is counted twice (`RetentionTotals.DayConserves`,
  `RetentionTotals.ArrivalConserves`, both exact; concrete rows in
  `RetentionCases.ReplacedBeforeDelete` and `RetentionCases.ReplacedAfterDelete`). A late row inside
  an archived day blocks its restore (`RetentionRoundTrip.DayLoads`,
  `RetentionCases.StrayBlocksRestore`).
- Removing an account changes rows, so a day with its rows can no longer be deleted
  (`RetentionApply.RemovalBlocksDay`). If the account is removed after such a day was deleted and
  marked, the archived rows name an account that is gone, the foreign key refuses them, and the whole
  restore fails (`RetentionCases.RemovalBlocksRestore`, exact condition in `RetentionCycle.LoadsWhen`).
  No other account's totals change (`RetentionRemoval.OthersReport`).
- A small write may leave the tunnel before a large one that took the lock first
  (`Tunnel.SmallMayOvertakeLarge`); the rate bound holds all the same, with one more burst.
- Loops are judged per sequence, so 98 identical calls in two sequences are no loop
  (`LoopDetector.SplittingHides`).
- The final check on a dispatch looks at the seat, not at the arm. A choice that the table knows by
  paused, shut or foreign arms only is dispatched exactly when `DispatchSelect.FlagsAreMissed` holds
  (the clause on `FlaggedChoice` in `DispatchSelect.Select`): it comes from explicit flags, a sticky first decision,
  the quota constraint or the standard, and its seat is safe. Explore and spread draws, the chain and
  the fallback never miss a flag. Three concrete dispatches of a paused arm:
  `DispatchSelect.SwapTakesPausedArm`, `DispatchSelect.StickyTakesPausedArm`,
  `DispatchSelect.FlagsTakePausedArm`.
- A kept first decision that fails the final check goes to the fallback even when the constraint has an
  arm whose seat may be used: without explicit flags or a chain, that arm is dispatched exactly when no
  other first decision is kept (the clause on `ConstraintOpen` in `DispatchSelect.Select`, concrete
  input in `DispatchSelect.MovedArmMissesConstraint`).
- The reviewer of a worker rung comes from a verify walk that ignores the caller's skipped rungs, so a
  rung skipped as a worker is still the reviewer exactly when it is the best rung of that walk
  (`LadderWalk.ReviewerIsSkipped`, concrete input in `LadderWalk.SkippedRungReviews`).
- When one event id carries two contents the first arrival wins. The kept events depend on the order
  of two batches exactly when some id has two contents (`EventLog.BatchOrder`); the events of the
  jobs in the index do exactly when such an id belongs to one of these jobs
  (`Outcomes.ConflictsReach`). The outcomes can then differ, from accepted to rejected
  (`Outcomes.OrderCanMatter`), and cannot when the jobs' events are the same (`Outcomes.SameOutcomes`).
- An event's id does not depend on the decision it is attributed to. A closeout that names its job and
  is collected before the job's next attempt stays with the earlier one
  (`Collecting.LaterAttemptMoves`); ingests in parts keep what one late ingest keeps exactly when every
  new row still means the same decision (`Collecting.DecisionsInParts`).

## Model

| member | source | states |
|---|---|---|
| `RetentionPolicy.TotalUnion` | app/retention_policy.py:93-113 | The rollup totals of two disjoint sets of rows add up, group by group, with each row's superseded flag judged against the whole table |
| `RetentionPolicy.RollupComplete` | app/retention_policy.py:93-113 | The rollup rows of a day hold, for every group including the superseded split, exactly the totals of the day's rows |
| `RetentionPolicy.InsertRollups` | app/retention_policy.py:93-113 | The insert makes exactly one row per occurring group and no other, each with that group's totals |
| `RetentionPolicy.SumGroup` | app/retention_policy.py:106-112 | Looping over the rows gives the group's total |
| `RetentionPolicy.GroupIs` | app/retention_policy.py:93-105 | A row's group has its day, account, dimensions, kind and mark, and is superseded exactly when a later counted row of the same account, request and time stands in the table |
| `RetentionPolicy.Columns` | app/retention_policy.py:106-112 | Which column of a group sums what; nulls count as nothing, output falls back to reasoning, latencies are counted |
| `RetentionPolicy.PlusColumns` | app/retention_policy.py:106-112 | Totals add column by column |
| `RetentionPolicy.CutoffIs` | app/retention_policy.py:46-49 | The cutoff is the midnight that many days before the last one |
| `RetentionApply.Database.Arrive` | app/retention_apply.py:96-112 | Other sessions may commit rows with fresh ids and known accounts, and new accounts, at any statement boundary; nothing else changes |
| `RetentionApply.Database.constructor` | app/db/request_models.py:26-32 | Tables whose primary and foreign keys hold make a valid database |
| `RetentionApply.MaxOldId` | app/retention_apply.py:25-26 | The largest id of a row before the cutoff, or 0 |
| `RetentionApply.Ascending` | app/retention_apply.py:27-31 | The distinct days in strictly ascending order |
| `RetentionApply.Export` | app/retention_apply.py:16-83 | From one snapshot, one unmarked entry and two matching files per old day, the tables untouched, and no id above the largest old one taken |
| `RetentionApply.ExportPartitions` | app/retention_apply.py:25-65 | Every row before the cutoff is in exactly one day of the archive with its content; rows at or after the cutoff or above the largest old id are in none |
| `RetentionApply.Archive.Verify` | app/retention_apply.py:86-89 | Succeeds exactly when every file matches the manifest |
| `RetentionApply.Archive.Mark` | app/retention_apply.py:127-128 | Marks one entry and changes no other |
| `RetentionApply.Database.RemoveAccount` | app/modules/accounts/removal_repository.py:17-31 | In one transaction an account's rows are dropped with their parts or made anonymous, row by row, its rollups likewise, and no other row, part or rollup changes |
| `RetentionApply.DeleteDay` | app/retention_apply.py:92-117 | Deletes and rolls up a day exactly when the locked rows match the archive and no row arrived in the range meanwhile; otherwise the tables keep every row and the range differs from the archive; the counts returned are the true ones |
| `RetentionApply.RemovalBlocksDay` | app/retention_apply.py:96-106 | A day with a row whose account was removed since the export differs from its archive, so it is never deleted; rows of other accounts are as they were |
| `RetentionRemoval.OthersReport` | app/modules/accounts/removal_repository.py:17-31 | Removing an account changes no other account's reported total, live and rolled up, in any group |
| `RetentionRemoval.ForgottenName` | app/modules/request_logs/daily_rollup.py:187-193 | No rollup is left under a removed account's name |
| `RetentionRemoval.ForgottenTotals` | app/modules/request_logs/daily_rollup.py:187-193 | A removed account's rolled totals, deleted or not, go on in the nameless group, unless its history goes too |
| `RetentionRemoval.KeptSurvives` | app/retention_apply.py:120-128 | While no account was removed, a kept run keeps all that survives removals |
| `RetentionRemoval.SurvivesArrives` | app/retention_apply.py:120-128 | Inserts keep what survives of a run |
| `RetentionRemoval.SurvivesRemoval` | app/modules/accounts/removal_repository.py:17-31 | After a removal every row seen at export is archived, or live as it was, or of a removed account and anonymous or gone with its history |
| `RetentionRemoval.SurvivesDeletes` | app/retention_apply.py:125-126 | Deleting the next day keeps what survives of a run |
| `RetentionTotals.DayReport` | app/retention_apply.py:107-109 | A day's delete moves exactly that day's share of every group from the live rows to the rollup |
| `RetentionTotals.DayConserves` | app/retention_apply.py:107-109 | Every reported group total survives a day's delete if and only if no insert that committed between the rollup and the delete replaced one of the day's rows |
| `RetentionTotals.NothingLost` | app/retention_apply.py:120-128 | At any point of a run every row seen at export is live or in a deleted day of the archive, unchanged, and rows that must stay are live |
| `RetentionTotals.LiveUnaffected` | app/retention_policy.py:101-105 | After clean arrivals a live row is superseded exactly when it would be had nothing been archived |
| `RetentionTotals.KeptReports` | app/retention_apply.py:120-128 | After clean arrivals every group's live plus rolled-up total is what it would be had nothing been archived |
| `RetentionTotals.KeptStarts` | app/retention_apply.py:121 | A fresh export starts a run that keeps the invariant |
| `RetentionTotals.KeptArrives` | app/retention_apply.py:120-128 | Inserts of other sessions keep the invariant of a run |
| `RetentionTotals.KeptDeletes` | app/retention_apply.py:125-126 | Deleting the next day keeps the invariant of a run, whatever is inserted meanwhile |
| `RetentionTotals.ArrivalConserves` | app/retention_policy.py:101-105 | After a clean run a further batch of rows leaves every reported total as if nothing had been archived if and only if it newly supersedes no archived row and no live row is superseded by archived rows alone |
| `RetentionRun.Apply` | app/retention_apply.py:120-144 | A run that finds a file that differs from its entry deletes nothing, and it answers so exactly then; otherwise, stopped at any step and with accounts removed between its days, it keeps what survives, and the whole invariant while none was removed; at most the last deleted day is unmarked; it gives up on a day only when that day differs from its archive; a finished run deleted and counted every day |
| `RetentionRun.DeleteDays` | app/retention_apply.py:125-128 | The day loop keeps all that after every step and marks days in order |
| `RetentionRun.NextDay` | app/retention_apply.py:126 | One turn of the day loop, after inserts and account removals by others, extends the run by one day, or stops it without deleting when the day differs from its archive |
| `RetentionRun.Removals` | app/modules/accounts/removal_repository.py:17-31 | Any number of removals, with inserts between them, keep what survives of a run |
| `RetentionRestore.Restore` | app/retention_restore.py:22-80 | While others insert rows, either no request table changes or every marked day is back and exactly the archive's rollups are gone; it commits exactly when the files are intact, every day's keys are free, its accounts known and its range equal to the archive at the moment it is checked, and the rollup count stood still; each failure is named for its cause, the first day that fails included; the marks are cleared unless the process dies before the manifest is written; the receipt's three counts are the rows, the parts and the rollups |
| `RetentionRestore.LoadDays` | app/retention_restore.py:35-63 | Loading the marked days in order, while others insert rows, succeeds exactly when each fits what is there when it is checked, and counts exactly the rows and parts of the marked days |
| `RetentionRestore.LoadDay` | app/retention_restore.py:38-62 | One day is inserted, and refused exactly when a key is taken, an account is missing or its range then differs from the archive |
| `RetentionRestore.CountIs` | app/retention_restore.py:33-34 | Dropping an archive's rollups keeps all others, and the count says how many go |
| `RetentionRestore.ClearedIs` | app/retention_restore.py:67-69 | Every mark is cleared and nothing else of the manifest changes |
| `RetentionRoundTrip.RestoreUndoesApply` | app/retention_restore.py:22-70 | When every deleted day is marked, a restore gives back every row that ever existed, with its parts, and the old rollup table; it loads if and only if no later row lies in a restored day's range |
| `RetentionRoundTrip.RestoredTables` | app/retention_restore.py:35-63 | After a run stopped anywhere, loading the marked days gives every row that ever existed but those of the unmarked deleted day |
| `RetentionRoundTrip.BackAt` | app/retention_restore.py:35-63 | After the first n entries exactly the rows of later or unmarked deleted days are still missing |
| `RetentionRoundTrip.DayLoads` | app/retention_restore.py:46-51 | A marked day loads if and only if no later row lies in its range |
| `RetentionRoundTrip.UnmarkedDayLost` | app/retention_restore.py:25-70 | After a crash between a day's delete and its mark, a restore leaves exactly that day's rows out and drops its rollups, so every group's total falls by the day's share |
| `RetentionRoundTrip.RestoreKeepsTotals` | app/retention_restore.py:25-70 | After a clean run a restore keeps every reported total if and only if every deleted day was marked |
| `RetentionRoundTrip.SecondRestoreChangesNothing` | app/retention_restore.py:25-69 | Once marks are cleared a restore loads nothing, needs nothing and removes no rollup |
| `RetentionRestore.RepeatAfterInterrupt` | app/retention_restore.py:64-70 | After a restore that died before the manifest was written, restoring again fails on the taken keys, whatever arrives |
| `RetentionCycle.ApplyThenRestore` | app/retention_restore.py:22-80 | On one database, apply, then inserts, removals and file damage, then restore: no day is deleted unless every file was read back whole; the restore commits if and only if the marked days' files are intact, no live row lies in their ranges and their accounts are there when they are checked, and the rollup count stood still; then all rows that ever existed and the old rollups are back, without an unmarked day; else nothing changed; with accounts removed, every row of a marked day or of another account is back as it was |
| `RetentionCycle.DayLoadsWhen` | app/retention_restore.py:38-62 | Whoever wrote and whichever accounts were removed, a marked day's keys are free and its range matches if and only if no live row lies in the range |
| `RetentionCycle.LoadsWhen` | app/retention_restore.py:35-63 | A restore among inserts loads if and only if no live row lay in a marked day's range, and the accounts of its rows were there, when that day was checked |
| `RetentionCycle.SurvivorsBack` | app/retention_restore.py:35-63 | After a restore exactly the rows of marked days and the rows left untouched outside deleted days are as they were at export |
| `RetentionCases.ReplacedBeforeDelete` | app/retention_apply.py:107-109 | A copy of a request that commits between the rollup and the delete changes a reported total |
| `RetentionCases.ReplacedAfterDelete` | app/retention_policy.py:101-105 | A copy of an archived request that arrives after a clean run changes a reported total |
| `RetentionCases.StrayBlocksRestore` | app/retention_restore.py:46-63 | One late row in the range of a deleted and marked day makes the restore fail |
| `RetentionCases.CrashBeforeMark` | app/retention_restore.py:25-70 | After a clean run that died between a delete and its mark, a restore loads and changes a reported total |
| `RetentionCases.RemovalBlocksRestore` | app/db/request_models.py:30-32 | An account removed after its day was archived: the keys and the range are free and the restore fails all the same |
| `Tunnel.TunnelBucket.constructor` | clients/claude_lb_common.py:283-289 | Burst length is the capacity in seconds, with the default capacity, and the bucket starts with a full burst |
| `Tunnel.TunnelBucket.Throttle` | clients/claude_lb_common.py:291-304 | One call schedules its bytes and returns the moment they may go, and the sleep loop ends exactly there |
| `Tunnel.BaseAdvances` | clients/claude_lb_common.py:294-297 | Between two calls the schedule advances by at least the time their bytes take |
| `Tunnel.SlotIsBacklog` | clients/claude_lb_common.py:294-297 | A call's slot is exactly the backlog since the earlier call that maximises it |
| `Tunnel.WindowEnds` | clients/claude_lb_common.py:291-304 | The bytes released in a window are bounded by those between its first and last released call in lock order |
| `Tunnel.RateBound` | clients/claude_lb_common.py:280-304 | Over any concurrent run the bytes released in any window are at most the rate times its length, two bursts and one write, and one burst when no write in it took the bypass |
| `Tunnel.SecondsInWindow` | clients/claude_lb_common.py:294-299 | Between the first and last write released in a window the schedule holds at most its length plus two bursts, one without the bypass |
| `Tunnel.SmallMayOvertakeLarge` | clients/claude_lb_common.py:298-299 | A small write can leave before a large one that took the lock first |
| `WeightedMedian.SortSorts` | app/audit_routing.py:42-60 | The reference list is a sorted permutation of the repeated lists |
| `WeightedMedian.CountExpand` | app/audit_routing.py:42-60 | Weighted ranks count the elements of the repeated list without building it |
| `WeightedMedian.RankInParts` | app/audit_routing.py:47-58 | The weighted rank of a value exceeds k exactly when element k of the sorted repeated list is at most that value |
| `WeightedMedian.KthInRange` | app/audit_routing.py:47-58 | Element k lies between the least first and the greatest last element |
| `WeightedMedian.Range` | app/audit_routing.py:47-58 | The search starts from the least first and the greatest last element |
| `WeightedMedian.Kth` | app/audit_routing.py:47-58 | Binary search over values ends at element k of the sorted repeated list |
| `WeightedMedian.ComputeWeightedMedian` | app/audit_routing.py:42-60 | The result is the true median, for odd, even and zero totals, of the sorted list in which each list is repeated by its weight |
| `LoopDetector.WindowSlides` | app/audit_token_report.py:116-122 | The multiset of the last 50 calls changes by the call that enters and the one that leaves |
| `LoopDetector.Advance` | app/audit_token_report.py:117-122 | The counter always equals the multiset of the last 50 calls |
| `LoopDetector.HotAt` | app/audit_token_report.py:123-124 | The test at an index holds exactly when the full window that ends there contains a call at least 20 times |
| `LoopDetector.SequenceLoops` | app/audit_token_report.py:111-125 | One pass finds a loop exactly when some 50 consecutive calls contain a call at least 20 times |
| `LoopDetector.AgentLoops` | app/audit_token_report.py:106-125 | An agent loops exactly when one of its sequences does |
| `LoopDetector.SplittingHides` | app/audit_token_report.py:107-125 | 98 identical calls loop in one sequence, and do not when they are split over two |
| `QuotaMode.ModeFile.Step` | clients/route_quota.py:73-127 | A locked step stores exactly the next controller state |
| `QuotaMode.NoPendingInAnthropic` | clients/route_quota.py:87-115 | In every run anthropic mode never has a pending recovery, and a recovery timer runs only while one is pending |
| `QuotaMode.LatestKeeps` | clients/route_quota.py:81-85 | The stored limit error is the newest of the old one and the fresh ones |
| `QuotaMode.LimitErrorsPersist` | clients/route_quota.py:81-84 | The stored limit error never gets older over a run |
| `QuotaMode.TimerStartsAfter` | clients/route_quota.py:87-97 | A recovery timer that runs in swap mode was started after the last short reading |
| `QuotaMode.TimerMeansEligible` | clients/route_quota.py:90-97 | Every reading since a running timer started had enough eligible accounts |
| `QuotaMode.NoChatter` | clients/route_quota.py:81-127 | A return comes over 300 s after a limit-error flip, at least 900 s after an eligible-accounts flip, and after a remaining or headroom flip only once that reading rose by over 10 points |
| `QuotaMode.ShortDelaysReturn` | clients/route_quota.py:87-97 | Every short reading of a swap period is at least 900 s older than the return |
| `QuotaMode.RecoveryWasSteady` | clients/route_quota.py:110-115 | A return with a recovery pending follows 900 s of readings with enough eligible accounts |
| `QuotaMode.QuietBeforeReturn` | clients/route_quota.py:110-113 | At a return every limit error read while fresh is over 15 minutes old |
| `QuotaMode.StoredErrorIsNewest` | clients/route_quota.py:81-85 | The stored limit error is the newest one that any step read while it was fresh |
| `QuotaMode.FlipsWhen` | clients/route_quota.py:99-109 | Anthropic mode is left if and only if the newest known limit error is at most ten minutes old, remaining or headroom is below the reserve, or too few accounts are eligible; the first of these in order is the cause on record |
| `QuotaMode.StaysOtherwise` | clients/route_quota.py:99-119 | A step that neither leaves nor returns keeps the mode and the last flip on record |
| `QuotaMode.PendingWhen` | clients/route_quota.py:87-89 | In a swap period a recovery is pending if and only if a reading of the period had too few eligible accounts |
| `QuotaMode.TimerNext` | clients/route_quota.py:90-97 | The timer of a pending recovery starts at the first of the sufficient readings that last until now |
| `QuotaMode.ReturnsWhen` | clients/route_quota.py:110-117 | Swap mode is left if and only if remaining and headroom are over ten points above the reserve, enough accounts are eligible, no limit error of the last 15 minutes is known, and, after a short reading, readings have been sufficient for 15 minutes |
| `ActivityRegistry.LbActivity.Start` | clients/claude_lb_certs.py:184-188 | Counts one more request in flight |
| `ActivityRegistry.LbActivity.End` | clients/claude_lb_certs.py:196-200 | Counts one request fewer in flight |
| `ActivityRegistry.Registry.Lookup` | clients/claude_lb_api.py:136-139 | The client's activity, or a new idle one that is now mapped |
| `ActivityRegistry.Registry.BeginRequest` | clients/claude_lb_api.py:128-140 | A request starts on the mapped activity, never on a popped one, and no other activity changes |
| `ActivityRegistry.Registry.EndRequest` | clients/claude_lb_api.py:145-147 | The request leaves its own activity and nothing is popped |
| `ActivityRegistry.Registry.CleanupRequest` | clients/claude_lb_api.py:148-151 | Pops the activity exactly when it is still the mapped one and idle |
| `ActivityRegistry.Take` | clients/claude_lb_api.py:126-151 | One request takes one step, which moves its own phase only and keeps the registry's invariant |
| `ActivityRegistry.Run` | clients/claude_lb_api.py:126-151 | Any interleaving of any requests keeps the registry's invariant, popped activities stay popped, and the requests under way are those the schedule left |
| `ActivityRegistry.BeginLinked` | clients/claude_lb_api.py:135-140 | Starting keeps busy activities mapped and popped ones unreachable |
| `ActivityRegistry.CleanupLinked` | clients/claude_lb_api.py:149-151 | Popping or not popping keeps busy activities mapped and popped ones unreachable |
| `ActivityRegistry.BusyMoves` | clients/claude_lb_api.py:140-147 | A start, an end or a cleanup moves the busy count of its own activity only |
| `ActivityRegistry.OneBusyActivityPerClient` | clients/claude_lb_api.py:126-151 | All requests in flight of one client are on one activity, the mapped one, whose count is exactly their number |
| `ActivityRegistry.PoppedStaysIdle` | clients/claude_lb_api.py:148-151 | A popped activity has nothing in flight and is not mapped |
| `ActivityRegistry.QuietRegistryIsEmpty` | clients/claude_lb_api.py:148-151 | When every request has cleaned up, the registry is empty |
| `Watchdog.Poll` | clients/claude_lb_process.py:305-334 | One tick folds in the activity files, the transcript and a due process check |
| `Watchdog.RunSupervised` | clients/claude_lb_process.py:269-343 | The first tick that sees an exit or a stall ends the run; without a positive timeout the child is only waited for |
| `Watchdog.LifeGrows` | clients/claude_lb_process.py:307-325 | A tick forgets no sign of life and sees none in the future |
| `Watchdog.SignsAre` | clients/claude_lb_process.py:251-325 | An idle activity file shows life now, a busy one at its last progress, a transcript at its last write, while younger than the timeout |
| `Watchdog.LifeIsWitnessed` | clients/claude_lb_process.py:305-334 | The last moment of life is the start, a witnessed sign, or a check that found work or followed one that had |
| `Watchdog.IntervalIs` | clients/claude_lb_process.py:290 | The process table is asked every 30 seconds, or four times within a shorter timeout |
| `Watchdog.LifeIsRemembered` | clients/claude_lb_process.py:307-331 | The last moment of life never goes back over a run |
| `Watchdog.WorkSeenIsLastAnswer` | clients/claude_lb_process.py:326-333 | The remembered answer is the one of the last process check, and the next check is due one interval later |
| `Watchdog.NoFalseStall` | clients/claude_lb_process.py:326-341 | The child is stopped only after the timeout without a witnessed life, at a tick whose process check found nothing and with none found at the check before |
| `Watchdog.LiveUntilDead` | clients/claude_lb_process.py:305-334 | Up to the time the signals end, the run keeps the facts that bound the stop |
| `Watchdog.SilentTick` | clients/claude_lb_process.py:326-334 | A silent tick that does not stop the child is still early |
| `Watchdog.SilentRun` | clients/claude_lb_process.py:326-334 | A silent run that was not stopped has not passed the bound |
| `Watchdog.StoppedInTime` | clients/claude_lb_process.py:326-341 | Once all signals end, the child is stopped within the timeout, the check interval and two ticks |
| `RollUp.Merge` | app/audit_allocation.py:18-25 | Adds every counter |
| `RollUp.Positive` | app/audit_allocation.py:30 | Exactly the agents of positive weight |
| `RollUp.MoveLastPermutes` | app/audit_allocation.py:33-34 | Putting the largest agent last loses and repeats no agent |
| `RollUp.Largest` | app/audit_allocation.py:33 | The first of the agents of greatest weight |
| `RollUp.Allocate` | app/audit_allocation.py:28-56 | The pieces sum to the value on every counter and each agent gets its exact proportional share, the first of the largest last, or everything goes to the lead |
| `RollUp.SplitOver` | app/audit_allocation.py:35-56 | Shares for all but the last and the running remainder for the last are all exact shares |
| `RollUp.UpsertAdds` | app/audit_token_report.py:249-250 | Merging into a named group adds the piece to the dimension's sum once |
| `RollUp.UpsertDistinct` | app/audit_token_report.py:249-250 | A dimension has one group per name |
| `RollUp.InsertBalanced` | app/audit_token_report.py:265-269 | Merging along a path keeps every tree node equal to the sum of its children |
| `RollUp.InsertBelowBalanced` | app/audit_token_report.py:267-269 | The children's sum grows by the piece and each child stays balanced |
| `TokenReport.AddPieceConserves` | app/audit_token_report.py:249-269 | A piece reaches every dimension, the sessions and the tree exactly once |
| `TokenReport.Report.AddEntry` | app/audit_token_report.py:197-269 | A split row raises every dimension, the sessions and the tree by its value on every counter |
| `TokenReport.Report.MergePiece` | app/audit_token_report.py:249-269 | The merges leave exactly the books with the piece added |
| `TokenReport.Report.Price` | app/audit_token_report.py:159-196 | The totals and the merged rows both sum to the priced receipts |
| `TokenReport.Report.Build` | app/audit_token_report.py:157-269 | On every counter the receipts' sum equals the totals, every dimension's groups, the sessions and the tree, whose nodes equal their children's sums |
| `CountRepair.Round` | app/audit_token_report.py:419 | Rounds to within a half, halves to the even integer, keeps whole numbers and never makes a share negative |
| `CountRepair.Counts` | app/audit_token_report.py:414-422 | The counts sum to the target, and only the first greatest one differs from its rounded share |
| `CountRepair.RoundingDrift` | app/audit_token_report.py:418-422 | Rounding moves a sum by at most half a request a value |
| `CountRepair.RepairIsClose` | app/audit_token_report.py:418-422 | Every other count is within half a request of its share, and the repaired one within half a request for each value and one more |
| `CountRepair.WholeSharesUnchanged` | app/audit_token_report.py:418-422 | Whole shares are left alone |
| `CountRepair.NegativeExactly` | app/audit_token_report.py:418-422 | The repair makes a count negative if and only if rounding overshoots the target by more than the greatest rounded share |
| `CountRepair.BigShareIsSafe` | app/audit_token_report.py:418-422 | One share of at least half the number of values and a half keeps every count nonnegative |
| `CountRepair.EvenSplitGoesNegative` | app/audit_token_report.py:418-422 | Fifteen requests over ten equal agents give one of them minus three |
| `CountRepair.RepairTree` | app/audit_token_report.py:428-433 | Every tree level ends with integers that sum exactly to their parent |
| `CountRepair.SharesAddUp` | app/audit_token_report.py:414-422 | A dimension's request shares sum to what its entries sum to |
| `CountRepair.RepairGroups` | app/audit_token_report.py:424-425 | A dimension's counts are integers that sum to the report total and stay near their shares |
| `CountRepair.RepairList` | app/audit_token_report.py:414-426 | A list without a given total ends with integers that sum to its rounded sum and stay near their shares; whole sums are kept |
| `CountRepair.RepairReport` | app/audit_token_report.py:424-433 | After the repair every dimension and every tree level of a conserved report sums exactly to the total, and the sessions shown sum exactly to their rounded sum |
| `QuotaAllocation.HighWaterExact` | app/audit_quota.py:77-103 | Within an epoch the counted deltas equal the final high-water mark minus the mark before the first counted snapshot |
| `QuotaAllocation.EpochOpens` | app/audit_quota.py:82-90 | The first snapshot opens an epoch, and a later one if and only if its reset time is an hour from the epoch's or the reading falls by over 50 points or from 20 to 5 |
| `QuotaAllocation.UsedIsMarkRises` | app/audit_quota.py:77-103 | The points used over a sorted history are the rises of the high-water mark over the counted snapshots, summed over the epochs |
| `QuotaAllocation.EpochWithinHundred` | app/audit_quota.py:89-103 | With readings of at most 100 no epoch counts over 100 points |
| `QuotaAllocation.Past` | app/audit_quota.py:105-110 | Bisection and stepping give the first receipt after a moment |
| `QuotaAllocation.Gather` | app/audit_quota.py:105-115 | The slice and its filter give exactly the receipts of the interval, in order |
| `QuotaAllocation.Split` | app/audit_quota.py:120-125 | Each receipt gets its exact share of the delta, the last by subtraction, and the sum grows by the delta |
| `QuotaAllocation.IntervalsDisjoint` | app/audit_quota.py:105-110 | No receipt is in two counted intervals |
| `QuotaAllocation.UncountedPaysNobody` | app/audit_quota.py:97 | A snapshot that is not counted pays no receipt |
| `QuotaAllocation.PaidOnce` | app/audit_quota.py:119-125 | Paying one interval leaves every other receipt's share as it was |
| `QuotaAllocation.PayInterval` | app/audit_quota.py:103-137 | A counted delta goes to its interval's receipts or is listed as missing, and the sum of both grows by it |
| `QuotaAllocation.AddToBinEffect` | app/audit_quota.py:104 | Adding to an hour changes that hour's bin only |
| `QuotaAllocation.PayHours` | app/audit_quota.py:140-155 | Every binned point goes to the in-window successes of its hour or is listed as missing |
| `QuotaAllocation.PayHour` | app/audit_quota.py:141-155 | One bin is paid out or listed, and the sum of both grows by it |
| `QuotaAllocation.AllocateGroup` | app/audit_quota.py:64-155 | Receipts' points plus missing points equal the points used, on the interval path and on the hourly path, and every receipt holds its exact share |
| `QuotaAllocation.SharesNonnegative` | app/audit_quota.py:97-155 | No receipt gets a negative number of points on either path |
| `QuotaAllocation.HourDeltaNonnegative` | app/audit_quota.py:92-104 | No hour's bin is negative |
| `LadderWalk.SameMakerIsLastResort` | clients/route_ladder_walk.py:98-104 | On the verify ladder a same-maker rung is best only when no rung at all is open, and it is a declared fallback |
| `LadderWalk.StandInIsLastResort` | clients/route_ladder_walk.py:75-78 | A stand-in is used unasked only when every default rung above it is skipped |
| `LadderWalk.SkipOneMore` | clients/route_ladder_walk.py:83-84 | Skipping one more rung takes it out and can otherwise only bring stand-ins in |
| `LadderWalk.PreferenceIsLocal` | clients/route_ladder_walk.py:79-81 | A preference opens no rung but the preferred ones |
| `LadderWalk.Screen` | clients/route_ladder_walk.py:57-104 | The ordered checks skip an entry exactly when one of the declared bars holds, and a preference waives only the waivable ones |
| `LadderWalk.Assess` | clients/route_ladder_walk.py:56-178 | Each entry gets the row that its bars, its pool, its resolution and its reviewer call for |
| `LadderWalk.DefaultLeft` | clients/route_ladder_walk.py:75-78 | Looks for a default rung above that is not skipped |
| `LadderWalk.Review` | clients/route_ladder_walk.py:108-141 | A worker rung's reviewer is the best rung of its maker's verify ladder, and the old table serves only when there is none, the maker is not Anthropic and Claude is short |
| `LadderWalk.ClaudeIsShort` | clients/route_ladder_walk.py:125-141 | Claude is short when at most one of its accounts is eligible, or with no count when its pool is exhausted |
| `LadderWalk.ReviewerIsSkipped` | clients/route_ladder_walk.py:108-141 | The reviewer of a routable worker rung is a rung the caller skipped if and only if the best rung of its maker's verify ladder is one |
| `LadderWalk.SkippedRungReviews` | clients/route_ladder_walk.py:108-141 | The caller skips a rung and that rung reviews the chosen one |
| `LadderWalk.LadderWalk` | clients/route_ladder_walk.py:35-219 | Ends on every input; one row per entry in order; the routable rows are the open and then the soft ones; the default is the first open rung or else the first soft one; the choice under a preference is the first matching row unless another maker could review; the intended rung is the first whose gate is not shut |
| `LadderWalk.FirstRow` | clients/route_ladder_walk.py:179 | The first open rung, or else the first soft one, or none exactly when every rung is skipped |
| `LadderWalk.Grant` | clients/route_ladder_walk.py:188-201 | The preferred row is the first that runs the wanted model, or is still unresolved when none does, and it is refused exactly when it is the author's maker while the default is not |
| `LadderWalk.FoundIsMatch` | clients/route_ladder_walk.py:190-198 | The two list filters find the first matching row |
| `LadderWalk.ReviewIsIndependent` | clients/route_ladder_walk.py:179-201 | With or without a preference the author's own maker reviews only when the unasked walk has no open rung |
| `LadderWalk.ChosenPassesBars` | clients/route_ladder_walk.py:82-104 | The choice is on the ladder and is not blocked, skipped, exhausted, leased out, unresolvable, down, or undeclared for the author's own maker |
| `LadderWalk.UsableIs` | clients/route_ladder_walk.py:82-104 | The bars that stand whatever the caller prefers, one by one |
| `LadderWalk.WaivedIs` | clients/route_ladder_walk.py:57-81 | The bars that a preference waives, one by one |
| `LadderWalk.SoftIs` | clients/route_ladder_walk.py:166-176 | A rung that is not skipped is soft exactly when its pool is kept back or it is the author's own maker's fallback |
| `Reservations.GrantStaysWithin` | app/modules/pools/reservations.py:91-107 | A grant never puts a key above its capacity, while requests agree on what that is |
| `Reservations.Serve` | app/modules/pools/reservations.py:86-155 | Over any run of reserve, renew and release requests that agree on capacities, no key ever has more live holds than its capacity |
| `Reservations.Store.constructor` | app/modules/pools/reservations.py:61-63 | A store without a file has no holds |
| `Reservations.Store.Purge` | app/modules/pools/reservations.py:57-74 | Exactly the holds that have run out leave the live list for the ended ones, of which those of the last day stay |
| `Reservations.ExpiredIn` | app/modules/pools/reservations.py:66-71 | Exactly the holds that have run out are on record as expired, when they did |
| `Reservations.YoungIn` | app/modules/pools/reservations.py:72-73 | Exactly the holds that ended within a day stay on record |
| `Reservations.Store.Reserve` | app/modules/pools/reservations.py:86-127 | A job that holds a rung gets that hold again; otherwise the first candidate with room gets a new hold that expires after its lifetime; otherwise all are full, nothing is held and the wait is for the first candidate's key |
| `Reservations.Store.Delay` | app/modules/pools/reservations.py:116-124 | The wait is 5 seconds when the key has no hold, else the time to its first expiry, kept between 5 and 60 seconds |
| `Reservations.Store.Heartbeat` | app/modules/pools/reservations.py:130-141 | Renews exactly a live hold, under the new model and lifetime, changes nothing else, and tells an ended hold from an unknown one |
| `Reservations.Store.Release` | app/modules/pools/reservations.py:144-155 | Moves this hold, and no other, to the ended ones with its outcome and time, and tells whether the id is known |
| `Reservations.Store.Interfere` | app/modules/pools/reservations.py:57-155 | Whatever other jobs and time do, this job gains no hold |
| `ReserveWalk.AskReserve` | clients/route_pace_state.py:240-252 | A request may be lost before or after the store serves it; an answer says truly what the job holds, a new hold is what the candidate asked for and within its capacity, and a refusal means its key is full |
| `ReserveWalk.AskHeartbeat` | clients/route_pick.py:174-181 | An answered renewal means the hold lives under the new model, an answered refusal that it is gone |
| `ReserveWalk.AskRelease` | clients/route_pick.py:191-195 | A served release ends the hold, whether or not its reply arrives |
| `ReserveWalk.LeftFirst` | clients/route_heal.py:263-271 | The next candidate asked is the first whose capacity key was not refused |
| `ReserveWalk.LeftMore` | clients/route_heal.py:270-271 | A refusal drops exactly the candidates of that key |
| `ReserveWalk.ReserveCandidates` | clients/route_heal.py:260-272 | Each capacity key is asked at most once; a new hold is what the first candidate asked for whose key was not refused, within its capacity; a wait means every key was asked for, the last is full and nothing is held; a failure leaves a hold only if a served reply was lost |
| `ReserveWalk.UnresolvedIsFresh` | clients/route_pick.py:160-170 | A row whose models are unknown is on the ladder and was not skipped |
| `ReserveWalk.LetGo` | clients/route_pick.py:189-201 | Two attempts; an answer means nothing is held, and so does a served attempt without one |
| `ReserveWalk.Settle` | clients/route_pick.py:171-201 | A held rung is renewed under the model found, or given up with nothing held, or reported as unreleased after two lost releases |
| `ReserveWalk.Confirm` | clients/route_pick.py:155-201 | A hold is kept under its row's model, confirmed under the model found, or given up with nothing held |
| `ReserveWalk.AskedAre` | clients/route_pick.py:134 | Without a preference exactly the rows not skipped are asked for, open ones first; with one, the preferred row |
| `ReserveWalk.Turn` | clients/route_pick.py:103-212 | A turn refuses exactly when its walk chose nothing; a new hold has the rung, seat, model and key of the first row asked for whose key was not refused, where the rows asked for are the preferred one or those not skipped, open ones first; a wait or failure means every row was asked for; otherwise it gives up a fresh ladder rung whose models were still to be listed and holds nothing |
| `ReserveWalk.ReserveWalk` | clients/route_pick.py:84-212 | Ends; every retry gives up a fresh ladder rung and holds nothing; a returned reservation is exactly what the job holds, and was held before or is of the first row asked for with room; a wait holds nothing and found a full row; it refuses exactly when the last walk, without the rungs given up, chose nothing; only lost replies can leave anything else |
| `ReserveWalk.ReleaseJobHold` | clients/route_class_candidates.py:167-192 | Reports success only when the job holds nothing, stops when its time is up, and succeeds within three requests that are heard |
| `ReserveWalk.ReleaseRound` | clients/route_class_candidates.py:170-190 | One listing and its releases: a heard listing of nothing ends it, and a heard listing and a heard release leave nothing held |
| `EventLog.FirstIs` | clients/route_build_outcomes.py:146-148 | For each id exactly its first event is kept |
| `EventLog.FirstConcat` | clients/route_build_outcomes.py:146-148 | The kept events of two batches are those of the first plus the new ids of the second |
| `EventLog.OrderIrrelevant` | clients/route_build_outcomes.py:146-148 | While one id means one event, order and repetition do not change what is kept |
| `EventLog.BatchOrder` | clients/route_build_outcomes.py:146-148 | Two batches may come in either order if and only if they agree on their common ids |
| `EventLog.FreshKeeps` | clients/route_build_outcomes.py:233-240 | Building from the stored and the new events equals building from the stored and all collected ones |
| `EventLog.IngestTwice` | clients/route_build_outcomes.py:233-239 | Ingesting the same sources again appends nothing |
| `EventLog.IngestInParts` | clients/route_build_outcomes.py:233-239 | Two partial ingests append, in the same order, what one ingest appends |
| `Collecting.Collect` | clients/route_workflow_args.py:164-205 | The events are those of the rows whose references are known, in order |
| `Collecting.PartsKept` | clients/route_build_outcomes.py:233-240 | Collecting some events first and all later keeps what one collection keeps if and only if each event new the first time comes out the same the second time |
| `Collecting.CollectedKeeps` | clients/route_workflow_args.py:164-205 | While one id means one row, the event kept for a row is its own |
| `Collecting.DecisionsInParts` | clients/route_build_outcomes.py:233-240 | With decisions arriving between two ingests, both keep what one late ingest keeps if and only if every row collected and new the first time still means the same decision |
| `Collecting.ReferencesHold` | clients/route_dispatch.py:360-366 | A reference to a decision keeps its meaning; one to a job does if and only if the job's last decision stays |
| `Collecting.LaterAttemptMoves` | clients/route_dispatch.py:360-366 | A closeout that names its job, collected before the job's second attempt, is kept otherwise than after it |
| `DecisionIndex.Root` | clients/route_dispatch.py:373-381 | On any parent links, cyclic ones too, the search ends, at the end of the chain of parents that starts at the row |
| `DecisionIndex.LookupIs` | clients/route_dispatch.py:359-365 | What a reference means: the decision of that id, else the last decision of that job |
| `DecisionIndex.ParentIs` | clients/route_dispatch.py:367-371 | A decision repairs the first decision of the job its parent reference means, if that is another job |
| `DecisionIndex.ChainsAgree` | clients/route_dispatch.py:367-381 | There is one way to follow the links |
| `DecisionIndex.SameRoot` | clients/route_dispatch.py:373-381 | Every decision on a chain that ends without a parent has the same root |
| `Ordering.SortingIsUnique` | clients/route_workflow_args.py:315 | Events sorted by time and id come out the same however they came in |
| `Ordering.Sort` | clients/route_workflow_args.py:315 | The events in strictly ascending order of time and id |
| `Outcomes.TimeOnlyAccepts` | clients/route_build_outcomes.py:52-133 | With the events fixed, time alone only ever turns pending into accepted |
| `Outcomes.MergedWork` | clients/route_build_outcomes.py:72-84 | Merged work is rejected when a repair, escalation or revert came by 72 hours after its earliest merge, accepted when they have passed without one, and pending before |
| `Outcomes.LastIsLatest` | clients/route_build_outcomes.py:68-70 | The last closeout is the one of the latest time and id |
| `Outcomes.CloseIs` | clients/route_build_outcomes.py:67-71 | Failed and awaiting mean what they say of the latest close and the highest attempt, whatever the order of the events |
| `Outcomes.OpenWork` | clients/route_build_outcomes.py:65-66 | Work neither closed nor merged is an infrastructure failure when one gave a reason, and pending otherwise |
| `Outcomes.UnmergedWork` | clients/route_build_outcomes.py:72-84 | Merge-class work that is closed and not merged is rejected after any repair, escalation or revert or a bad close of its last attempt, and pending otherwise |
| `Outcomes.RepairedWork` | clients/route_build_outcomes.py:85-86 | Other work that was closed or merged is rejected after a repair or escalation |
| `Outcomes.UnjudgedWork` | clients/route_build_outcomes.py:87-114 | Without a verdict or a metric such work is rejected on a bad close of its last attempt and pending otherwise |
| `Outcomes.MetricWork` | clients/route_build_outcomes.py:98-114 | Work with a metric is accepted when the latest one moved up or down as it was to, as stated or from before to after, and rejected otherwise |
| `Outcomes.UnclosedWork` | clients/route_build_outcomes.py:115-118 | Ordinary work that was merged and never closed waits |
| `Outcomes.ClosedWork` | clients/route_build_outcomes.py:115-133 | Ordinary work, closed and never repaired, is pending while its last attempt is open, rejected on a bad latest close or a rival dispatch within two hours, accepted two hours after a good one, and pending before |
| `Outcomes.VerdictWork` | clients/route_build_outcomes.py:85-97 | Review work, closed or merged and never repaired, is accepted when its latest verdict matches and rejected when it does not |
| `Outcomes.RowsAreUnique` | clients/route_build_outcomes.py:149-221 | The outcomes are a function of the kept events, the decisions and the time |
| `Outcomes.OutcomesIgnoreOrder` | clients/route_build_outcomes.py:136-221 | Any order, repetition or batching of consistent events gives the same outcomes |
| `Outcomes.SameOutcomes` | clients/route_build_outcomes.py:149-221 | Two sets of kept events give the same outcomes if and only if every job's row is the same, and always when every indexed job keeps the same events |
| `Outcomes.ConflictsReach` | clients/route_build_outcomes.py:146-151 | In either order two batches leave every indexed job the same events if and only if each id with two contents belongs, both times, to jobs that the index does not know |
| `Outcomes.OrderCanMatter` | clients/route_build_outcomes.py:146-148 | Two events with one id whose order decides between accepted and rejected |
| `Outcomes.Group` | clients/route_build_outcomes.py:146-151 | The loops keep the first event of each id and list each job's events once |
| `Outcomes.BuildRow` | clients/route_build_outcomes.py:161-220 | A job's row is the row of its kept events in order of time and id |
| `Outcomes.RowCounts` | clients/route_build_outcomes.py:205-210 | Repairs and escalations are counted, and the row's time is that of the latest event, or of the first decision |
| `Outcomes.RowNames` | clients/route_build_outcomes.py:171-219 | The row names its decisions and events in order, the merged commits and the child jobs that are known, and is settled exactly when every decision was closed or failed |
| `Outcomes.RowReports` | clients/route_build_outcomes.py:175-180 | The model and the failure reason are the last that an event reports |
| `Outcomes.WallAdds` | clients/route_build_outcomes.py:173-174 | Wall time adds up over the events |
| `Outcomes.WallOne` | clients/route_build_outcomes.py:173-174 | Only closes and failures report wall time |
| `Outcomes.BuildOutcomes` | clients/route_build_outcomes.py:136-221 | One row per job of the decision index, in order of name, made from the kept events alone |
| `Outcomes.Log.Ingest` | clients/route_build_outcomes.py:224-247 | Appends exactly the new ids, when asked to write, and rebuilds the outcomes of stored and collected events |
| `Outcomes.IngestParts` | clients/route_build_outcomes.py:224-247 | Two ingests of parts, one ingest of the whole and a repeated ingest leave the same file and the same outcomes |
| `IntervalAttribution.CutCovers` | clients/lb_cache_quota.py:115-166 | Every row of an account is in exactly one run between readings or after the last |
| `IntervalAttribution.FateWhen` | clients/lb_cache_quota.py:119-137 | A run is measured if and only if it ends in the report's time, the reading before it exists, is not higher and names no other reset, and less than the window passed |
| `IntervalAttribution.WeighedWhen` | clients/lb_cache_quota.py:138-145 | Tokens are the weights if and only if every row has a count and some count is not zero |
| `IntervalAttribution.WeightIs` | clients/lb_cache_quota.py:138-145 | A row weighs its tokens, or one |
| `IntervalAttribution.CallerIs` | clients/lb_cache_quota.py:152-158 | Who the caller is; a session counts only without seat and room, the client's before ours |
| `IntervalAttribution.TotalPositive` | clients/lb_cache_quota.py:138-147 | The weights of a run never sum to zero |
| `IntervalAttribution.CoverageComplete` | clients/lb_cache_quota.py:115-167 | What coverage gains accounts for every in-window row once, as measured or unmeasured, and intervals equal token plus request intervals |
| `IntervalAttribution.EveryRequestCounted` | clients/lb_cache_quota.py:112-167 | For each account and window, measured and missed rows are together the account's in-window rows |
| `IntervalAttribution.WholeRun` | clients/lb_cache_quota.py:147-162 | A run inside the window is paid in full |
| `IntervalAttribution.WholeRiseIsPaid` | clients/lb_cache_quota.py:147-162 | All callers together get the whole rise of a run inside the window |
| `IntervalAttribution.AddAdds` | clients/lb_cache_quota.py:158-162 | Adding to a share changes one caller's sum in one window, by the amount |
| `IntervalAttribution.AddDistinct` | clients/lb_cache_quota.py:159-161 | There is one share per account and caller |
| `IntervalAttribution.PayRun` | clients/lb_cache_quota.py:138-162 | Every caller's sum grows by the rise times the in-window part of the run's weight that is the caller's |
| `IntervalAttribution.Close` | clients/lb_cache_quota.py:122-166 | A reading measures, skips or ignores its run as its time, reset and value say |
| `IntervalAttribution.Attribute` | clients/lb_cache_quota.py:114-167 | For one account and window, coverage and shares say exactly what the runs call for |
| `IntervalAttribution.Group` | clients/lb_cache_quota.py:90-97 | Each account lists its receipts before the end, in order |
| `IntervalAttribution.Regroup` | clients/lb_cache_quota.py:168-176 | Grouping by consumer changes no caller's sum and no total |
| `IntervalAttribution.QuotaReport` | clients/lb_cache_quota.py:89-192 | Every caller's sum over every account is what is owed, consumers keep those sums, and coverage counts the readings, the measured and the skipped runs and the unmeasured rows of every account |
| `DispatchSelect.ChainChoice` | clients/route_heal.py:315-338 | The first chain model with an open pool that the seat checks pass, on the standard's seat, or none exactly when there is none |
| `DispatchSelect.Fallback` | clients/route_heal.py:63-105 | The first open spread arm, else the first open explore arm, else the standard if it is not blocked, the author's standard or any open author variant, else nothing, with that arm's kind, id, seat and model |
| `DispatchSelect.FallbackIsOpen` | clients/route_heal.py:63-105 | What the fallback returns is safe and carries no flag, and it returns nothing if and only if no arm, standard or author variant is open |
| `DispatchSelect.Candidates` | clients/route_heal.py:187-197 | Exactly the arms that pass every check, in order, may be drawn |
| `DispatchSelect.ExploreDraw` | clients/route_heal.py:198-216 | The draw lands on the one arm whose range of scaled shares holds it, or on none when it passes every range |
| `DispatchSelect.CapHolds` | clients/route_heal.py:198-201 | A draw at or above the class cap explores nothing, whatever the shares |
| `DispatchSelect.DrawExplores` | clients/route_heal.py:198-216 | A draw below the cap and below the sum of shares always explores |
| `DispatchSelect.SpreadDraw` | clients/route_spread.py:8-77 | A spread arm is picked if and only if one may be drawn and the class is not mission critical, and it is the one whose weight range holds the spin; otherwise the standard is |
| `DispatchSelect.SpreadWeightIs` | clients/route_spread.py:45-50 | An arm weighs its strength times the percentage left of its pool |
| `DispatchSelect.Drawn` | clients/route_spread.py:27-50 | Exactly the arms with room, a known seat and weight, outside Anthropic, in order |
| `DispatchSelect.Spin` | clients/route_spread.py:51-57 | A spin below the total weight lands on the arm whose weight range holds it |
| `DispatchSelect.Sticky` | clients/route_heal.py:157-183 | A job keeps its first decision exactly while that arm is still listed and not blocked |
| `DispatchSelect.StandardIs` | clients/route_heal.py:87 | The author's variant gives the standard its seat and model, and nothing else |
| `DispatchSelect.Draw` | clients/route_heal.py:184-234 | The explore arm that is drawn, else a spread arm if any may be drawn, else the standard |
| `DispatchSelect.DrewIsScreened` | clients/route_heal.py:188-234 | A drawn explore or spread arm is safe and carries no flag; only the standard's turn is not screened |
| `DispatchSelect.ConstraintChoice` | clients/route_grok.py:158-207 | Work of a hands class goes to the first explore arm on a hands seat exactly when no brief tag forbids it, a trigger fires and the pool is not shut; the arm's own flags are not looked at |
| `DispatchSelect.TriggersFire` | clients/route_grok.py:181-195 | When Codex counts as short, one trigger by one |
| `DispatchSelect.ExplicitIs` | clients/route_heal.py:138-156 | The seat and model that flags ask for, and what stands in for what they leave out |
| `DispatchSelect.ConstraintPasses` | clients/route_grok.py:171-207 | With no first decision, a constraint arm on a seat not excluded is dispatched against its flag if and only if it is flagged and its seat is not off |
| `DispatchSelect.StickyPasses` | clients/route_heal.py:157-183 | A kept first decision of the constraint is dispatched against a flag if and only if its arm is flagged |
| `DispatchSelect.ExplicitPasses` | clients/route_heal.py:128-156 | Explicit flags are dispatched against a flag if and only if the seat may be used, the table knows it and every arm on it is flagged |
| `DispatchSelect.StandardPasses` | clients/route_heal.py:184-234 | The standard is dispatched against a flag if and only if nothing is drawn, its seat may be used and it is flagged under every name it has |
| `DispatchSelect.StandardsTurn` | clients/route_heal.py:198-234 | Nothing is drawn if and only if the draw reaches the class cap or the sum of the shares and no spread arm has a turn |
| `DispatchSelect.OnlyUnscreenedKinds` | clients/route_heal.py:108-257 | A missed flag is always on a constraint, explicit or standard choice |
| `DispatchSelect.Gate` | clients/route_heal.py:235-257 | The hands-only rule and the final check let a choice through exactly when its seat is safe; flags for an Opus seat wait, and any other choice gives way to the fallback's, which never misses a flag |
| `DispatchSelect.Select` | clients/route_heal.py:108-257 | The choice is that of the flags, else of the chain, else a kept first decision, else the constraint's, else the draws', as the final check and the fallback leave it; on every path the returned seat is not excluded, paused or disabled, keeps the hands-only rule and, for verify, is the author's reviewer seat; it is a choice that the table knows by flagged arms only if and only if the one that comes first is safe as a seat and is such a choice; a usable constraint arm is chosen if and only if no other first decision is kept; outside the Opus seats nothing is returned only when nothing is open |
| `DispatchSelect.GateIsSafety` | clients/route_heal.py:246 | The last gate refuses exactly the unsafe choices |
| `DispatchSelect.SwapTakesPausedArm` | clients/route_grok.py:171-207 | In swap mode the paused arm on the hands seat is dispatched |
| `DispatchSelect.StickyTakesPausedArm` | clients/route_heal.py:157-183 | An arm paused after a job's first dispatch stays that job's arm |
| `DispatchSelect.FlagsTakePausedArm` | clients/route_heal.py:128-156 | Explicit flags get the seat of a paused arm |
| `DispatchSelect.MovedArmMissesConstraint` | clients/route_heal.py:157-254 | A kept explore arm whose first seat is off goes to the fallback although the constraint's arm could be used |

## Left out

- RetentionApply.Database.EditRollups: says only that the tables stay valid, because an account removal may rewrite or drop any rollup row.
- RetentionApply.Database.Arrive: account removals are steps of their own and commit between the transactions of an apply run, not within one and not while a restore runs, because a removal waits for the row locks of the day it touches; what a run keeps of its totals is stated while no account is removed, and row by row otherwise.
- RetentionApply.Archive.Rot: says only that the number of files stays, because a damaged volume may hold anything.
- RetentionTotals.KeptReports: holds for runs in which no arrival lies in an archived range or replaces an archived row, because otherwise totals do change; the exact conditions are the two conservation lemmas beside it.
- RetentionRestore.Restore: the checks of one day read the tables at one moment, and only the rollup table may be edited under the transaction, because inserts are all that other sessions do to request rows then.
- RetentionRoundTrip.UnmarkedDayLost: speaks of clean runs, because otherwise the totals already differ before the restore.
- Tunnel.RateBound: sleeping is ideal, so a write is released at its scheduled moment; a late wake-up only moves bytes to later, and is not modelled.
- ReserveWalk.AskReserve: a request that times out is served before the next one is sent or never, because a server that serves it later could grant a hold at any time afterwards.
- ReserveWalk.ReserveWalk: the outcome that the store cannot be reached, or that a hold could not be released, may leave a hold, because the reply that would tell is lost; the hold then lives until it runs out.
- RetentionRun.Apply: files are read back once and are not damaged during the delete loop, because the loop does not read them; damage after the run is part of `RetentionCycle.ApplyThenRestore`.
- ReserveWalk.ReleaseJobHold: time is a number of requests that may still be sent, because every request has its own timeout.
- LadderWalk.LadderWalk: the table errors that end the program (an unknown author or preferred rung) are not modelled, because they return nothing to the caller.
- Outcomes.BuildOutcomes: costs and their parts, session ids, fallback seats, evaluation tags and baseline rows are not part of the row, because they read the same sorted events in the same way as the fields that are.
- EventLog.IngestInParts: the two parts are parts of one list of events, so decisions that arrive between the ingests are the subject of `Collecting.DecisionsInParts` instead.
- Collecting.Collect: covers the rows that become closeouts; reverts and repairs, the time window and ids given in the row are not modelled, because they look decisions up in the same way.
- IntervalAttribution.QuotaReport: receipts are taken in the order of time and id, and the final ranking and top five are not modelled, because they only order the result.
- QuotaAllocation.AllocateGroup: receipts and snapshots are taken sorted by time, and the calibration samples are not modelled, because they feed fit statistics only.
- QuotaMode.ModeFile.Step: a stored mode other than the two known ones is not modelled, because the step only ever writes those two.
- ActivityRegistry.LbActivity.Start: the progress times and the activity file are not modelled, because the registry protocol reads the counter only.
- Watchdog.RunSupervised: a timeout that is not a finite number and the signals sent to the child are not modelled; a timeout of zero or less is.
- TokenReport.Report.Build: the labels, prices and waste detectors are arbitrary inputs or absent, because the conservation law does not look inside them.
- DispatchSelect.Select: the ledger notes, propensities and reasons are not part of the choice, because nothing branches on them.
- The byte relay `splice` and the websocket tunnel: system calls around two counters.
- `routing_rows`, `decision_join` and `movements` of the routing audit: dictionary grouping of the kind that `TokenReport` covers.
- `class_candidates`, `apply_overrides` and model resolution: filters whose answers the ladder walk takes as given.
- The collectors of merges, reverts and repairs: the fold is proved for any collected events.
- HTTP, TLS, certificates, subprocesses, SQL text, compression and hashing, the dashboards and all printing.
