# Backup Center, modelled and proved

Backup Center is a multi-tenant service that backs up network devices. Most of it talks to devices; this project
models the parts that keep state, interleave or compute, and proves what they promise over every input and every run.

| modules | what they model |
|---|---|
| `Basics`, `Text`, `Folds` | options, Python strings, loops as folds |
| `SqlDump`, `SqlRoundTrip`, `LegacySqlReader` | the two readers of MySQL dumps, and the printer they must invert |
| `CircuitBreaker`, `BreakerRaces`, `AdaptiveSlots`, `AdaptiveRaces`, `JumpHostStore`, `SlotLeases` | jump-host protection in Redis: breaker, learned slot counts, leased slots |
| `LogScan`, `LogStream`, `LogPolling` | the realtime log: backward scan, appends and prunes, polling clients |
| `UnifiedDiff`, `DiffReplay`, `DiffRebuild`, `ConfigLines` | the diff parser and the normal form of configurations |
| `Calendar`, `Schedule`, `Routing`, `Dispatch`, `Scheduler`, `SchedulerTask`, `SchedulerRuns`, `SchedulerGaps` | calendar arithmetic, routing, and the scheduler task over whole runs |
| `GroupRun`, `VpnSession`, `VpnWorkers` | the device loop of a group backup, VPN sessions, and their interleavings |
| `Billing`, `Histogram` | payment escalation and cumulative histograms |

Code that changes state step by step is a class or a method with loops, proved equal to a function of the old state;
what the code promises is proved about that function. A "run" is any finite sequence of events.

How the parts read the original:

- Redis is available. A key with expiry `e` exists while `now < e`. Workers and Redis share one clock in whole
  milliseconds. In `CircuitBreaker` and `AdaptiveSlots`, recording an outcome, checking the breaker and reporting a
  result to the controller are atomic; `BreakerRaces` takes the check apart into its read and its rewrite, `AdaptiveRaces`
  the report into its reads, its count and its write.
- The breaker's percentage is the exact quotient rounded down; the original rounds a float down (`app/tasks/backups.py:742`),
  which can be one less: 57 failures of 100 make 56.
- The reset for a new batch deletes keys matching `backup_center:jump_host_adaptive:*`. Its description says that earlier slot
  reductions are cleared, but the hash of learned slot counts does not match the pattern and survives. The model follows the code.
- Lock tokens are a counter: no two are equal. Released locks are found by token, as the release script does.
- Instants are integers (microseconds, milliseconds or seconds). The time zone has a constant offset.
- Characters classed as digits, or lower-cased, are the ASCII ones. Decimal literals in dumps are kept as text.
- A unified diff's input is any edit script, in the form difflib writes it. Lines and values are strings of characters.
- JSON is an injective encoding: a stored line is garbage, JSON that is no object, or an entry with its fields.
- Marker lists and regular expressions that classify messages or volatile lines are parameters.

Where the code does less than one would expect, the exact condition is proved: a breaker check whose rewrite comes late
(`BreakerRaces.RunCompleteIff`), reports that interleave (`AdaptiveRaces.SpacedIff`), an occurrence in the second after a batch (`SchedulerRuns.SkipsNothingIff`), dishonest
diff lines (`DiffReplay.ParseRendering`), hidden log entries (`LogScan.ScanIsSimpleReadIff`), polls beyond the limit
(`LogPolling.PollLosesBeyondLimit`, `LogPolling.NothingMissedIff`), stale entries behind fresh ones (`LogStream.HeadPruneEqualsFullPruneIff`), strings the
older dump reader cannot recover (`LegacySqlReader.TwoPassRecoversIff`), progress that falls back
(`GroupRun.DirectFallsBackIff`), a lock timeout that takes another session's VPN down (`VpnWorkers.NeverBrokenIff`),
and empty normal forms (`ConfigLines.IdempotentIff`).

## Model

| member | source | states |
|---|---|---|
| `SqlDump.ScanEndIsFirst` | scripts/migrate_old_system_full.py:128-147 | the statement scan stops at the first semicolon that is outside strings, escapes and parentheses, for any text |
| `SqlDump.MysqlUnescape` | scripts/migrate_old_system_full.py:78-101 | the loop computes the unescaping that the round trip inverts |
| `SqlDump.ScannerAndTokeniserAgree` | scripts/migrate_old_system_full.py:128-196 | the scanner's step and the tokeniser's, each written as its own loop has it, give the same quote, escape and depth state after every prefix of every text |
| `SqlDump.IterInsertValueBlocks` | scripts/migrate_old_system_full.py:117-150 | the loops yield the value block of every statement; the outer loop ends |
| `SqlDump.ParseValuesBlock` | scripts/migrate_old_system_full.py:153-196 | the character loop computes the tokeniser's rows |
| `SqlDump.ScanThenTokenise` | scripts/migrate_old_system_full.py:128-196 | on the values of any statement the two loops' own flags and depths pass through the same states, character by character |
| `SqlDump.ParseTableRows` | scripts/migrate_old_system_full.py:199-203 | all rows of all blocks, in order |
| `SqlRoundTrip.UnescapeEscape` | scripts/migrate_old_system_full.py:78-101 | unescaping undoes MySQL escaping for every string, whether the writer escapes all it may or only what it must |
| `SqlRoundTrip.ParsePrintValue` | scripts/migrate_old_system_full.py:104-114 | reading a printed NULL, integer, decimal or string gives the value back |
| `SqlRoundTrip.ScanStopsAtOwnSemicolon` | scripts/migrate_old_system_full.py:128-150 | the scan of a statement stops at its own final semicolon and at none inside it |
| `SqlRoundTrip.OneStatement` | scripts/migrate_old_system_full.py:117-150 | one turn of the outer loop yields exactly its statement's body and resumes right after its semicolon, so the search always advances |
| `SqlRoundTrip.DumpBlocks` | scripts/migrate_old_system_full.py:117-150 | the scanner cuts any printed dump into exactly the bodies of its statements, though strings may hold the INSERT text itself |
| `SqlRoundTrip.RoundTrip` | scripts/migrate_old_system_full.py:117-203 | printing any statements of a table and reading the dump returns all their rows, in order |
| `SqlRoundTrip.LineBreaksAreGaps` | scripts/migrate_old_system_full.py:117-122 | line breaks between statements are always allowed, whatever the table is called |
| `LegacySqlReader.ParseSqlInsert` | migrate_ajust_data.py:54-132 | the older reader's loops compute its specification |
| `LegacySqlReader.TokenisersAgree` | migrate_ajust_data.py:84-132 | after every prefix of every text the older tokeniser has the same rows as the newer one and, inside a row, the same value and row in progress |
| `LegacySqlReader.TwoPassRecoversIff` | migrate_ajust_data.py:135-147 | the two replacements recover an escaped string exactly when only quotes and backslashes were escaped, and then they equal the one-pass unescape |
| `LegacySqlReader.LegacyReadsFirstStatement` | migrate_ajust_data.py:54-147 | given a dump it can read, the older reader returns the rows of the first statement whatever follows |
| `LegacySqlReader.ReadersAgreeIff` | migrate_ajust_data.py:54-147 | the two readers agree on such a dump exactly when the statements after the first hold no rows; in particular on every dump of one statement |
| `CircuitBreaker.Refinement` | app/tasks/backups.py:664-766 | over every run, the pruned and expiring list answers every check as the full history since the last reset does |
| `CircuitBreaker.WholePercent` | app/tasks/backups.py:742-743 | in exact arithmetic, rounding the percentage down before comparing it with the threshold never changes the outcome |
| `CircuitBreaker.TripsExactlyWhen` | app/tasks/backups.py:738-763 | a check newly opens the breaker exactly when it is not open and the window holds enough outcomes with 100 * failures at least threshold * total |
| `CircuitBreaker.Recovers` | app/tasks/backups.py:682-766 | once window plus open time has passed since the last outcome, every check answers closed however often it re-tripped |
| `BreakerRaces.ListIsSubsequence` | app/tasks/backups.py:703-736 | with reads and rewrites interleaved freely, the stored list stays a subsequence of what was recorded |
| `BreakerRaces.RewriteHarmlessIff` | app/tasks/backups.py:726-736 | in any state, a rewrite of a list that has grown since its read changes nothing for a check exactly when the read held nothing stale or nothing added is in the window |
| `BreakerRaces.ReadThenRewrite` | app/tasks/backups.py:703-736 | from any state, what is recorded between a worker's read and its rewrite is lost exactly when the read held something stale, and matters exactly when some of it is in the window |
| `BreakerRaces.RunCompleteIff` | app/tasks/backups.py:664-736 | over every run, resets included, the list shows each check exactly what was recorded in the window since the last reset if and only if every rewrite of a stale read finds nothing newer in the window (or, after a reset, the same outcomes in the window as have been recorded since) and the list expires only when the window is empty |
| `BreakerRaces.LateRewriteLosesOutcomes` | app/tasks/backups.py:703-736 | under every configuration, a run in which a late rewrite deletes just enough fresh failures to trip the breaker |
| `BreakerRaces.RewriteUndoesReset` | app/tasks/backups.py:703-736 | in any state, a rewrite of a stale read made before a reset puts back what the reset deleted |
| `BreakerRaces.ResetUndone` | app/tasks/backups.py:248-252 | under every configuration, a run in which that trips the breaker though nothing has been recorded since the reset |
| `AdaptiveSlots.OneReport` | app/tasks/backups.py:573-661 | the count rises by one and only on a success at full streak, falls only on a saturation failure at full streak, and never moves in a cooldown |
| `AdaptiveSlots.CountInBounds` | app/tasks/backups.py:432-449 | over every run the count stays in 1..16 and within the configured count and the boost, and one streak at most is running |
| `AdaptiveSlots.ChangesArePaidFor` | app/tasks/backups.py:573-661 | over every run of atomic reports, ups times the success streak never exceed the successes, downs times the shorter failure streak never exceed the saturation failures |
| `AdaptiveSlots.ChangesAreSpaced` | app/tasks/backups.py:590-661 | over every run of atomic reports, two changes in a row are at least a cooldown apart unless a reset lies between |
| `AdaptiveSlots.ResetKeepsLearnedCount` | app/tasks/backups.py:254-257 | a reset clears streaks and cooldown but leaves the learned count in force |
| `AdaptiveSlots.ReductionSurvivesReset` | app/tasks/backups.py:254-257 | under every policy, after just enough saturation failures and a reset the count is still below the configured one |
| `AdaptiveRaces.UndisturbedReport` | app/tasks/backups.py:573-661 | with nobody in between, the four steps of a worker are one atomic report |
| `AdaptiveRaces.BoundsSurvive` | app/tasks/backups.py:573-661 | however the steps of reports and resets interleave, the count stays in 1..16 and within the configured count and the boost, and one streak at most is running |
| `AdaptiveRaces.SpacedIff` | app/tasks/backups.py:595-661 | over every interleaving, writes of the count are a cooldown apart if and only if no worker writes while a cooldown that started after it looked is running |
| `AdaptiveRaces.TwoChangesAtOnce` | app/tasks/backups.py:595-661 | from any state one failure short of a reduction, two workers reporting together lower the count twice at one instant |
| `AdaptiveRaces.CooldownIsNotKept` | app/tasks/backups.py:595-661 | a run from the start in which that happens, for every policy that starts above 2 and whose severe streak is at most one longer than the plain one |
| `JumpHostStore.Store.RecordOutcome` | app/tasks/backups.py:664-679 | appends to the host's live list and renews its expiry; no other host's keys change |
| `JumpHostStore.Store.CheckBreaker` | app/tasks/backups.py:682-766 | does to the host's keys, and answers, what the step of the refinement says; no other host's keys change |
| `JumpHostStore.Store.ResolveSlots` | app/tasks/backups.py:432-449 | the slot count read is always in 1..16, the learned one if there is one |
| `JumpHostStore.Store.AdaptSlots` | app/tasks/backups.py:573-661 | does to the host's keys what the controller step says; no other host's keys change |
| `JumpHostStore.Store.ResetForNewBatch` | app/tasks/backups.py:219-269 | clears every host's breaker, streaks and cooldown but no learned count, and counts the open, outcome and adaptive keys cleared |
| `SlotLeases.MutualExclusion` | app/tasks/backups.py:900-1039 | in every interleaving no slot has two tasks with unexpired leases |
| `SlotLeases.LeasesAreNotTaken` | app/tasks/backups.py:1034-1039 | no step of any task, a late release included, removes another task's unexpired lease |
| `SlotLeases.LeasesWithinLimits` | app/tasks/backups.py:917-929 | unexpired leases never exceed the largest slot count read by a current holder, nor 16 |
| `SlotLeases.Worker.SleepWithStopPoll` | app/tasks/backups.py:348-357 | unless stopped, the whole delay has passed |
| `SlotLeases.Worker.WaitForSlot` | app/tasks/backups.py:935-1033 | each wait ends holding a slot that was free and below the count read, cancelled, or with the whole wait used up |
| `SlotLeases.Worker.LeaveSlot` | app/tasks/backups.py:1034-1039 | after leaving, the worker holds nothing, whoever owns the lock by then |
| `LogScan.ScanChunks` | app/services/realtime_backup_logs.py:381-414 | the chunked loop computes the backward collection for any chunk size |
| `LogScan.ScanRecent` | app/services/realtime_backup_logs.py:349-418 | the whole read, its short cuts included, and its cursor |
| `LogScan.CollectIsTail` | app/services/realtime_backup_logs.py:381-417 | on any log the scan returns the last matching entries behind the boundary, in order |
| `LogScan.ScanIsSimpleReadIff` | app/services/realtime_backup_logs.py:399-401 | the early stop agrees with the filter-and-take-last read for every limit exactly when no wanted entry stands before one at or below the cursor |
| `LogScan.ReplyIsSimpleRead` | app/services/realtime_backup_logs.py:349-418 | with numbers increasing up to the counter and garbage anywhere, the read is exactly filter-and-take-last |
| `LogStream.GlobalLog.AppendEntry` | app/services/realtime_backup_logs.py:226-242 | numbers the entry from the counter, prunes when due and always trims |
| `LogStream.GlobalLog.PruneByAge` | app/services/realtime_backup_logs.py:284-309 | pops exactly the stale head and counts it, also when a line raises |
| `LogStream.GlobalLog.PruneAll` | app/services/realtime_backup_logs.py:312-346 | keeps exactly the fresh entries, or changes nothing in a dry run or when a line raises |
| `LogStream.GlobalLog.ClearTenant` | app/services/realtime_backup_logs.py:450-496 | removes exactly the tenant's entries, leaving unreadable lines |
| `LogStream.HeadPruneEqualsFullPruneIff` | app/services/realtime_backup_logs.py:284-346 | popping the head keeps what the full filter keeps exactly when nothing stale stands behind a fresh entry |
| `LogStream.InTimeOrderPrunesAgree` | app/services/realtime_backup_logs.py:284-346 | for well-formed entries in time order the two prunes keep the same |
| `LogPolling.LogInvStep` | app/services/realtime_backup_logs.py:187-244 | every append, trim, prune and clear keeps the numbers strictly increasing and within the counter |
| `LogPolling.NeverTwice` | app/services/realtime_backup_logs.py:349-418 | over every run a client is shown entries in strictly increasing order, none twice |
| `LogPolling.ArrivalBecomesPending` | app/services/realtime_backup_logs.py:224-234 | every append makes exactly its own entry pending for the clients it concerns |
| `LogPolling.PollLosesBeyondLimit` | app/services/realtime_backup_logs.py:412-417 | a poll shows everything pending exactly when the limit covers it, and loses the oldest rest for good otherwise |
| `LogPolling.NothingMissed` | app/services/realtime_backup_logs.py:349-418 | when no trim, prune or clear removes a pending entry and every limit covers what is pending, a client has seen exactly the entries that concern it, in order |
| `LogPolling.NothingMissedIff` | app/services/realtime_backup_logs.py:349-418 | over every run whose polls ask for something, what a client has seen and what is pending are exactly the entries that concern it if and only if nothing pending is removed and every limit covers what is pending |
| `LogPolling.LostStep` | app/services/realtime_backup_logs.py:284-418 | each removal of a pending entry and each poll beyond its limit loses something for good, and no other step does |
| `UnifiedDiff.ParseUnifiedDiff` | app/services/diff_service.py:111-179 | the loop computes the fold of its line step over any lines |
| `UnifiedDiff.CountsAgree` | app/services/diff_service.py:91-93 | whenever every changed line comes after a hunk header, the entries shown are as many as the counts reported |
| `DiffReplay.HeaderRead` | app/services/diff_service.py:128-139 | the header of any hunk, with or without counts, is read back to the numbers of its first lines |
| `DiffReplay.ParseRendering` | app/services/diff_service.py:111-179 | any script's rendering is parsed into exactly its hunks, numbers and escaped contents, if and only if no removed line starts with two minus signs and no added line with two plus signs |
| `DiffRebuild.UnescapeEscapeHtml` | app/services/diff_service.py:152 | the displayed content determines the line |
| `DiffRebuild.EscapedIsInert` | app/services/diff_service.py:152 | displayed content holds no character that opens a tag or closes an attribute |
| `DiffRebuild.ReplayRebuilds` | app/services/diff_service.py:111-179 | applying the parsed hunks to the old lines, checking every number and every displayed old line, rebuilds exactly the new lines |
| `DiffRebuild.RenderingCounts` | app/services/diff_service.py:91-96 | on every rendering, misparsed or not, the page shows as many added and removed lines as it reports |
| `DiffRebuild.CountsBalance` | app/services/diff_service.py:91-93 | old lines plus reported additions are new lines plus reported removals |
| `ConfigLines.NormalizeConfigLines` | app/services/backup_diagnostics.py:157-184 | the two loops compute the normal form, and kept plus dropped is the number of input lines |
| `ConfigLines.Compacted` | app/services/backup_diagnostics.py:171-183 | no two blank lines are adjacent, no other line is lost or moved |
| `ConfigLines.FixedIff` | app/services/backup_diagnostics.py:157-184 | lines are their own normal form exactly when all are stripped and stable and no blanks are adjacent |
| `ConfigLines.EmptyIff` | app/services/backup_diagnostics.py:157-184 | the normal form is empty exactly when every line is volatile |
| `ConfigLines.IdempotentIff` | app/services/backup_diagnostics.py:157-184 | normalising a written-out normal form changes nothing exactly when some line of the text is not volatile |
| `ConfigLines.VolatileTextInvisible` | app/services/backup_diagnostics.py:157-184 | a volatile line inserted anywhere in a text, whatever its line ending, leaves no trace |
| `ConfigLines.EndsInvisible` | app/services/backup_diagnostics.py:158-163 | texts that differ in trailing blanks and in their uniform line ending have one normal form |
| `Calendar.DateOfOrdinal` | app/services/schedule_utils.py:66-88 | every date is recovered from its day number, across leap years and the turn of the year |
| `Schedule.SanitizedIsClock` | app/services/schedule_utils.py:26-34 | the sanitised time is always a printed time of day, and sanitising it again changes nothing |
| `Schedule.NextDailyRunIsLeast` | app/services/schedule_utils.py:37-47 | the next daily run is strictly later and no earlier instant after the reference has its time of day |
| `Schedule.WeeklyLeast` | app/services/schedule_utils.py:65-73 | the same for a weekday, given, clamped or the reference's own |
| `Schedule.MonthlyLeast` | app/services/schedule_utils.py:75-88 | the same for a day of the month, clamped to the month's last day, across December to January |
| `Schedule.NextRunIsLeast` | app/services/schedule_utils.py:50-90 | for any routine and offset the next run is the least occurrence strictly after the reference |
| `Routing.EnabledFlagsAreIgnored` | app/services/connection_mode.py:44-57 | the flags that should enable a device's override never have an effect |
| `Routing.MikrotikAvoidsJumpHost` | app/services/connection_mode.py:90-133 | under the policy a MikroTik device without override goes over a jump host exactly when only the legacy flag says so |
| `Dispatch.BatchOnRoute` | app/tasks/backups.py:2363-2393 | every message is on the route of each device it reaches, one message a VPN group |
| `Dispatch.BatchReachesAll` | app/tasks/backups.py:2363-2396 | the messages reach the eligible devices as a multiset, and their number is direct plus jump plus the sizes of the groups |
| `Scheduler.FirstMax` | app/tasks/backups.py:2267-2275 | the tenant's time is one that no other outnumbers, and the first of those |
| `SchedulerTask.Service.RunScheduledBackups` | app/tasks/backups.py:2211-2428 | rows, queues and report become those of the run, or nothing changes when backups are stopped or a bulk runs |
| `SchedulerTask.Service.NormaliseRows` | app/tasks/backups.py:2311-2328 | the in-place loop over the rows, the tenants due and the rows initialised |
| `SchedulerTask.Service.QueueBatch` | app/tasks/backups.py:2357-2396 | the routing and queueing loops of one tenant |
| `SchedulerRuns.RunReaches` | app/tasks/backups.py:2311-2396 | in one run a device is queued exactly once if it is eligible and a schedule of its tenant is due, and never otherwise; the reported total is direct plus jump plus the devices of the VPN messages |
| `SchedulerRuns.RunOnRoute` | app/tasks/backups.py:2363-2393 | every message of a run is on its devices' own route |
| `SchedulerRuns.NothingStaysDue` | app/tasks/backups.py:2398-2405 | after a run every visible schedule waits for a future instant, so a second run at the same instant queues nothing |
| `SchedulerRuns.BatchedWaitForNext` | app/tasks/backups.py:2398-2405 | a batch moves each visible schedule of its tenant to the least occurrence of its time more than a second away |
| `SchedulerRuns.BatchedTime` | app/tasks/backups.py:2348-2405 | a batched schedule gets its tenant's daily time, whatever other tenants are batched before it, and waits for it |
| `SchedulerRuns.SkipsNothingIff` | app/tasks/backups.py:2398-2405 | the next run of each schedule of a batched tenant is the least occurrence of the tenant's daily time after the batch exactly when none falls in the second after it; otherwise one is passed over |
| `SchedulerRuns.SkipsWithinSecond` | app/tasks/backups.py:2398-2405 | in any run that batches a tenant up to a second before an occurrence of its daily time, its schedules move on to the day after |
| `SchedulerRuns.OverdueSkips` | app/tasks/backups.py:2311-2405 | for every time of day, day and zone, a schedule overdue up to a second before its occurrence is batched and skips it |
| `SchedulerGaps.EveryRun` | app/tasks/backups.py:2259-2405 | over every run of ticks and changes of devices that edit or bring back no schedule, two batches of a tenant have an occurrence of its daily time after the first and not after the second |
| `GroupRun.Task.Run` | app/tasks/backups.py:1887-2177 | the device loop, the progress reports and the result are those of the specification, on every path |
| `GroupRun.LoopEnds` | app/tasks/backups.py:1994-2141 | the loop ends at the first stop or exception, counts what succeeded before it, and a stop counts every device left as failed |
| `GroupRun.Conservation` | app/tasks/backups.py:1887-2177 | every end without an exception has succeeded plus failed equal to the total |
| `GroupRun.VpnRunProgress` | app/tasks/backups.py:1042-1047 | over a VPN the reported progress never decreases and stays in 5..95 until the final 100 |
| `GroupRun.ProgressSpans` | app/tasks/backups.py:1042-1047 | the progress of a VPN run is 5 with nothing done and 95 with everything done |
| `GroupRun.DirectFallsBackIff` | app/tasks/backups.py:2023-2031 | without a VPN the reported progress falls back exactly when more than 20 devices are given and one is processed |
| `VpnSession.CleanProfilesExactly` | app/services/vpn_service.py:121-155 | cleaning up leaves exactly the connections that share no name with a VPN profile, and the one to keep |
| `VpnSession.ConnectResult` | app/services/vpn_service.py:176-276 | connecting succeeds exactly when the manager's answers allow it; then the group's profile is the only VPN and active, and otherwise no VPN is left or nothing was touched |
| `VpnSession.Service.CleanupVpnProfiles` | app/services/vpn_service.py:136-155 | the two loops over listed profiles |
| `VpnSession.Service.WaitForVpnQuiescent` | app/services/vpn_service.py:157-174 | returns at once when no VPN is active and uses the whole time otherwise |
| `VpnSession.Service.ConnectGroupVpn` | app/services/vpn_service.py:176-276 | the steps of a connection, retry and clean-up included |
| `VpnSession.Service.Session` | app/services/vpn_service.py:319-331 | the group's profile is the only VPN while the body runs, and none is left after success, a failed connection, a failed body or a lock timeout |
| `VpnWorkers.SessionsAreExclusive` | app/services/vpn_service.py:293-331 | over every run in which no worker that gave up waiting deletes the profile of a running body, sessions never overlap, exactly the group's profile is active in the body, and none is left between sessions |
| `VpnWorkers.StepsAreConnectAlone` | app/services/vpn_service.py:192-276 | the three steps of a connection, with nobody in between, have the effect of one |
| `VpnWorkers.ConnectAloneIsConnect` | app/services/vpn_service.py:192-276 | that effect is the service's connection, outcome included |
| `VpnWorkers.EvictionBreaksIff` | app/services/vpn_service.py:325-331 | in any state, a profile deleted by a worker that gave up waiting breaks a session exactly when it is the profile of a running body |
| `VpnWorkers.NeverBrokenIff` | app/services/vpn_service.py:293-331 | over every run, command by command, no worker is ever in its body without exactly its profile if and only if no worker that gave up waiting deletes the profile of a running body |
| `VpnWorkers.NoTimeOutsUndisturbed` | app/services/vpn_service.py:293-331 | every run in which all lock acquisitions succeed is undisturbed |
| `VpnWorkers.TimeOutBreaksSession` | app/services/vpn_service.py:319-331 | a disturbed run for any two VPN groups; the profile deleted is among those the clean-up lists |
| `Billing.Registry.EnforceAccessPolicy` | app/services/billing_policy_service.py:171-221 | the loop does to every tenant, and counts, what the policy says |
| `Billing.BlockedIff` | app/services/billing_policy_service.py:107-143 | a tenant is to be blocked exactly when it is past due by its whole grace; before that the days announced are the whole days left |
| `Billing.NeverReverts` | app/services/billing_policy_service.py:107-143 | with a fixed due date, overdue and to-be-blocked never revert |
| `Billing.BlockedForGood` | app/services/billing_policy_service.py:190-201 | a later sweep changes nothing about a tenant that a sweep has blocked |
| `Billing.FirstBlockTime` | app/services/billing_policy_service.py:197-199 | over sweeps at growing times the block time kept is that of the first sweep that should block |
| `Billing.SecondSweepIdle` | app/services/billing_policy_service.py:188-210 | a second sweep at the same instant changes no tenant and counts none |
| `Histogram.SplitRecovers` | app/services/backup_observability.py:296-299 | splitting a field on its last separator recovers label key and bound even if a label holds the separator |
| `Histogram.FieldsDiffer` | app/services/backup_observability.py:169-170 | different label keys or bounds never share a field |
| `Histogram.BucketCounts` | app/services/backup_observability.py:150-173 | after any observations each bucket holds the number of observations of its label key at or below its bound |
| `Histogram.InfinityCounts` | app/services/backup_observability.py:163-172 | the +Inf bucket and the count are the number of observations, the sum is their sum |
| `Histogram.Cumulative` | app/services/backup_observability.py:294-317 | rendered buckets never decrease with the bound, and +Inf equals the count |
| `Histogram.Redis.ObserveHistogram` | app/services/backup_observability.py:150-173 | the loop adds the observation to the three hashes |
| `Histogram.Redis.RenderHistogram` | app/services/backup_observability.py:294-314 | reading every field back and rendering gives each bound's bucket in order, then +Inf |

## Left out

- SSH, Telnet, Netmiko and pexpect scripts, network prechecks and connection tests: input and output against libraries that cannot be seen.
- Web and API wiring, templates, database schema changes, seeds and resets: plumbing.
- Encryption, password hashing, one-time codes, JSON encoding and the difflib algorithm: foreign code.
- Bulk locks of a tenant (`acquire_tenant_bulk_lock`): get, delete and set are separate steps and another function overwrites the owner, so no mutual exclusion is claimed.
- Redis outages, daylight saving changes and the rounding of floats: availability, a constant offset and exact arithmetic are assumed.
- Plan limits, API tokens, reports, device editing and file migration: they would only add easy members.
- LegacySqlReader.ParseSqlInsert: table names that hold characters special in a regular expression are not modelled.
- SqlRoundTrip.RoundTrip: comments and text between statements may not hold the INSERT text itself; the scanner finds it anywhere.
- CircuitBreaker.WholePercent: the rounding of the float quotient is not modelled; with it, 57 failures of 100 do not reach a threshold of 57.
- AdaptiveSlots.ChangesAreSpaced: about atomic reports; with reports interleaved it holds exactly when `AdaptiveRaces.SpacedIff` says.
- AdaptiveSlots.ChangesArePaidFor: about atomic reports; two interleaved reports can share one streak.
- AdaptiveRaces.SpacedIff: counting a result, with its expiry and the deletion of the other streak, is one step, and so is writing the count with its cooldown.
- SlotLeases.Worker.WaitForSlot: a Redis error on one attempt, and the log lines and metrics of the wait, are not modelled.
- SlotLeases.Worker.ShouldStop: the flags behind a stop request are an arbitrary answer.
- LogStream.GlobalLog.AppendEntry: the task's own log and the expiry of the keys are not modelled; the counter outlives the log.
- LogPolling.NothingMissed: appends are atomic; a writer that takes a number and pushes it later is not modelled.
- UnifiedDiff.ParseUnifiedDiff: reading the backups and normalising them before the diff is not part of it.
- Schedule.NextRunIsLeast: years beyond 9999, where Python raises, are not modelled.
- SchedulerTask.Service.RunScheduledBackups: queries return devices and rows in identifier order, and tenants are numbered; the database transaction is not modelled.
- SchedulerGaps.EveryRun: schedules edited or brought back into view between batches are excluded, because an edit may set the next run anywhere.
- GroupRun.Task.Run: the group query, log lines and messages are not modelled, and the jump-host guards around one device are part of its outcome; the exact quotient stands for the float in the progress.
- VpnSession.Service.ConnectGroupVpn: parsing of nmcli's lines, credentials and the back-off after an unavailable manager are not modelled; profiles change only through the service.
- VpnWorkers.SessionsAreExclusive: workers that run isolated, without the lock, are not modelled; taking a profile down and deleting it is one step, and so is the clean-up of the worker that holds the lock.
- Billing.Registry.EnforceAccessPolicy: schema checks, the transaction and time-zone coercion are not modelled.
- Histogram.Redis.ObserveHistogram: not-a-number and infinite values, which the code ignores, and the serialisation of labels are not modelled; the hashes are updated as one step, as the pipeline does.
- Counters and gauges, the page's cache and its help lines: easy members.
