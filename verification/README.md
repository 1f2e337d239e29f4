# Account state of a messaging service, verified

The service posts to groups from several Telegram accounts. Its state lives in JSON files that are
rewritten all the time: send logs that are pruned while they are counted, a rate limiter for joining
groups, a cached partition of the group list, scores and flood histories, a bounded inbox, and a few
printers and parsers. This project models that state and proves what the code relies on.

Conventions.

* A module models one source file. A class holds the fields or the file its methods rewrite, each
  method is proved equal to a function of the old state, and the laws are proved about those functions
  and about runs of steps.
* Times are whole milliseconds since the Unix epoch, given to each operation as `now`; a clock never
  runs back. Runs of the statistics and of joins begin at least one day after the epoch, runs of the
  group scores at a positive time, and all other runs at any time. A drawn random number is an argument
  or an arbitrary choice.
* Each public operation is atomic, and a JSON file is a field that is read and written whole. Absent
  values are `None`; an absent account name is the empty text, as the code's own tests for truth have it.
* A `World` or `System` adds what the code throws away: the full history of sends, joins, floods or
  results. A main result compares the stored state with that history over every run.

* Two kinds of results go together. Invariants say what no run loses; the modules named `...Effects`,
  and the lemmas named so elsewhere, say what a step brings about, in plain times and counts over the
  history and without the vocabulary of the step.

Modules: `IstTime`, `StatsReset`, `SendStats`, `GroupSendStats`, `StatsWindow` (runs over the former
three), `StatsEffects` and `AccountShutdown` for statistics; `JoinCycle` and `JoinEffects`;
`GroupAssignment` and `GroupsStore`; `SmartEngine`; `ForwardIntelligence`; `DmStore` and `DmEffects`;
`StructuredLogging`, `PostingMode` and `MessageRewrite` for text; `Sequences`, `Text` and `Wrappers` for
shared vocabulary.

Where the code and its own words disagree, the model follows the code.

* `invalidate_cache(slot)` compares the first character of each key with the account name
  (core/send_stats.py:97), so it leaves the account's cached total in place. `Count24hIsTrueUnlessStale`
  says exactly when the total is then right, and `ResetLeavesStaleTotal` gives a run where it is not.
* `evaluate_join` says a failing group is skipped "until later cycles" (core/join_cycle.py:254), but
  nothing lowers a failure count: `BackoffIsForever`.
* The wait reported for a restricted account is rounded down (core/join_cycle.py:239):
  `RestrictionWaitFallsShortIff` says exactly when it is too short.
* The last time of a join is stored in whole seconds, so the next join may come sooner than the minimum
  interval by the fraction of a second that was lost. `EarlyJoinIff` says exactly when one does,
  `IntervalKeptIff` which profiles never let it happen over any run, and `GapMayFallShortOfInterval`
  gives a run where it does.
* An all-digit user name does not survive its label (core/posting_mode.py:162): `LabelIsCanonicalIff`.
* A bare number with slashes behind it raises an index error (core/posting_mode.py:161), which the model
  returns as `NoPeer`: `NoPeerIff` says for exactly which links, `OneTwoThreeHasNoPeer` gives one.
* Recording a flood can make the tick profile less cautious. A second critical flood replaces a longer
  cooldown by its own (core/forward_intelligence.py:126-127), and into a full history of 100 floods a new
  one can push a heavy one out (core/forward_intelligence.py:120-123). `FloodRelaxesIff` and
  `FloodRelaxesLaterIff` say exactly when, `FloodRelaxesIffOverRuns` says it of every run, and
  `BurstRelaxes` gives a run where it happens.
* Better health can make the tick profile more cautious, since poor health is asked before heavy floods
  (core/forward_intelligence.py:195-201): `HealthTightensIff` says exactly when, `HealthMayTighten` gives
  a run where it does.
* The idle verdict reads pruned logs, so an account may be shut down although it posted an hour ago, if a
  reset or midnight has taken the post out of its logs: `PrunedVerdictIff` compares the verdict with the
  one on the full histories, `ShutDownAnHourAfterPost` gives a run.
* The grand total of the matrix is the sum of its rows only if no account that sent anything is asked
  for twice: `GrandTotalIsRowSum`.
* Messages without a Telegram id take the clock as id, and two of them may share it: `IdsStayDistinctIff`
  says exactly when the ids of a conversation stay distinct, `ClockIdsMayCollide` gives a run where they
  do not.
* A reset to a time given by the caller can move a cutoff back: `ExplicitResetKeepsCutoffIff`.
* Two branches are never taken: the last return of `evaluate_posting_idle`
  (core/account_shutdown.py:260) and the fallback of `_partition_slots` inside `groups_for_slot`
  (core/group_assignment.py:47), since an account that is not logged in has left before.

## Model

| member | source | states |
|---|---|---|
| IstTime.DayStart | core/ist_time.py:72-77 | the day start lies on the calendar day of `now`, at most one day before it |
| IstTime.DayStartSplitsDates | core/ist_time.py:67-77 | an instant is before the day start exactly when its calendar date is earlier; day starts follow the clock |
| IstTime.DateChangesAtIstMidnight | core/ist_time.py:67-77 | the calendar date changes at 18:30 UTC, which is midnight in India, and at no other time |
| StatsReset.CutoffIsLatest | core/stats_reset.py:87-119 | the branches of the cutoff come to the latest of day start, global reset and account reset; it lies between day start and now and never before the global cutoff |
| StatsReset.StatsResetStore.SetResetTimestamp | core/stats_reset.py:174-202 | a reset too soon for its key is refused and changes nothing; any other is written at the given time or now and restarts the key's debounce clock |
| StatsReset.StatsResetStore.WriteResetTimestamp | core/stats_reset.py:145-171 | an account reset changes that account only; a global reset drops every account entry |
| StatsReset.StatsResetStore.MaybeAutoReset24h | core/stats_reset.py:205-262 | a rollover restarts everything when the global period is over, else exactly the accounts whose own period is over, else nothing |
| StatsReset.StatsResetStore.RollOver | core/stats_reset.py:242-252 | the loop over due accounts sets exactly their reset and debounce times to now |
| StatsReset.CollectDue | core/stats_reset.py:231-236 | the due accounts are those whose own reset is 24 hours old, in the order asked |
| StatsReset.RolloverIff | core/stats_reset.py:141-262 | main result on rollovers: everything restarts exactly when the global reset is 24 hours old, else exactly the listed accounts whose own reset is, and with none nothing changes and nothing is reported |
| StatsReset.ResetMovesCutoffToNow | core/stats_reset.py:145-171 | a reset at the present time moves the cutoff of the account, or of all, to now, and no other cutoff |
| StatsReset.DebounceIsPerAccount | core/stats_reset.py:184-190 | resets of an account are refused for two seconds after the last, those of others are not |
| StatsReset.RolloverDebounces | core/stats_reset.py:225-250 | a rollover starts the two seconds of exactly what it restarts |
| StatsReset.ResetKeepsValid | core/stats_reset.py:145-171 | after any reset at the current time every account entry is still at or after the global one and not in the future |
| StatsReset.AutoResetKeepsValid | core/stats_reset.py:221-253 | the same for a rollover |
| StatsReset.CutoffNeverMovesBack | core/stats_reset.py:87-119 | neither a reset at the current time, nor a rollover, nor midnight moves any account's cutoff back |
| StatsReset.ExplicitResetKeepsCutoffIff | core/stats_reset.py:174-202 | an account reset to an explicit time keeps the account's cutoff from moving back exactly when the time is not before it, or is of an earlier day and the global cutoff already is the account's |
| StatsReset.ExplicitGlobalResetKeepsCutoffsIff | core/stats_reset.py:145-202 | a global reset to an explicit time moves no cutoff back exactly when every reset on file is no later than that time or the day start |
| SendStats.FilterSinceCutoff | core/send_stats.py:104-120 | keeps exactly the events at or after the cutoff of the kind asked for, in order |
| SendStats.SendHistory.InvalidateCache | core/send_stats.py:94-101 | without an account clears the cache; with one drops the keys whose first character is the account name |
| SendStats.SendHistory.CountSinceCutoff | core/send_stats.py:123-133 | the number of stored events at or after the cutoff, by kind if asked |
| SendStats.SendHistory.RecordSend | core/send_stats.py:136-152 | prunes the log at the cutoff, appends the send, caches the tally, and returns the count for that kind |
| SendStats.SendHistory.PruneFile | core/send_stats.py:236-239 | the file ends up without the events before the cutoff, also when only one kind was counted |
| SendStats.SendHistory.Count24h | core/send_stats.py:227-249 | answers from a fresh cache only if no kind is asked, else counts, prunes and, for a total, caches |
| SendStats.SendHistory.HourlyBuckets | core/send_stats.py:194-224 | each bucket holds the events of its hour over all accounts, and all buckets together hold the events of the window |
| SendStats.AddSlot | core/send_stats.py:209-223 | the inner loop adds one account: each event inside the window raises exactly one bucket by one |
| SendStats.TalliedSnoc | core/send_stats.py:218-223 | one event keeps buckets and their sum equal to the events counted |
| SendStats.BucketIndex | core/send_stats.py:221 | the index computed from an age is the bucket whose hour contains that age |
| SendStats.OneBucketPerEvent | core/send_stats.py:218-223 | an event counts in the window exactly when it counts in one bucket, and then in that one only |
| SendStats.InBucketIff | core/send_stats.py:218-223 | an event of age zero lies in the last bucket, and each full hour of age takes it one bucket back |
| GroupSendStats.NormalizeGroup | core/group_send_stats.py:47-53 | a name is trimmed and begins with @, and is empty exactly when the input is blank |
| GroupSendStats.NormalizedIsStripped | core/group_send_stats.py:47-53 | trimming a stored group name again, as the matrix does, changes nothing |
| GroupSendStats.NormalizedGroupIs | core/group_send_stats.py:47-53 | a blank name stays blank; any other is trimmed and gets an @ in front unless it has one |
| GroupSendStats.GroupSendHistory.RecordGroupSend | core/group_send_stats.py:56-69 | a named send prunes the log at eight days and is appended; a blank account or group changes nothing |
| GroupSendStats.GroupSendHistory.CountGroupSendsSinceCutoff | core/group_send_stats.py:82-85 | the number of stored group sends at or after the cutoff |
| GroupSendStats.Retained | core/group_send_stats.py:66-67 | keeps exactly the events at or after the pruning time |
| GroupSendStats.CollectShown | core/group_send_stats.py:100-106 | the trimmed group names of the events at or after the cutoff, one for each event |
| GroupSendStats.ShownAsOftenAsSent | core/group_send_stats.py:100-121 | main result: each group is shown as often as it was sent to since the cutoff |
| GroupSendStats.Increment | core/group_send_stats.py:116-120 | one event adds one to one cell, opening its row if needed, and changes no other cell |
| GroupSendStats.TallyAccount | core/group_send_stats.py:111-121 | an account's column becomes the number of its shown events for each group; other columns keep |
| GroupSendStats.BuildTable | core/group_send_stats.py:108-124 | the rows are exactly the groups some account sent to since its cutoff, and every cell is the true number of its events |
| GroupSendStats.RowTotals | core/group_send_stats.py:126-130 | a row's total is the sum of its cells over the accounts asked for |
| GroupSendStats.ComputeGroupSendMatrix | core/group_send_stats.py:93-155 | rows, cells, row totals, account totals and grand total of the whole matrix |
| GroupSendStats.OccurrencesSum | core/group_send_stats.py:111-121 | counting an account's events group by group counts every event once |
| GroupSendStats.RowsSumToAccounts | core/group_send_stats.py:126-153 | row totals and account totals count the same events |
| GroupSendStats.GrandTotalIsRowSum | core/group_send_stats.py:109-153 | the grand total is the sum of the row totals exactly when every account asked for twice sent nothing, and is never more |
| StatsWindow.CutoffsOverRuns | core/stats_reset.py:87-262 | main result: over every run of resets, rollovers and time, cutoffs never move back, lie between day start and now, and never before the global cutoff |
| StatsWindow.PrunedCountsAreTrueCounts | core/send_stats.py:104-152 | main result: after every run, counting a pruned log from the cutoff or later, of any kind, gives the count over the history that was never pruned; the same for group sends |
| StatsWindow.Count24hIsTrueUnlessStale | core/send_stats.py:227-249 | main result: a count by kind is always the true count; a cached total is never too small, and is true exactly when no send lies between the cutoff it was taken under and the present one |
| StatsWindow.ResetLeavesStaleTotal | core/send_stats.py:94-99 | a run of one send, a reset and the account's own invalidation after which the total is 1 and the truth is 0 |
| StatsWindow.RecordedCountIsTrue | core/send_stats.py:136-152 | what `record_send` returns is the true count for that kind, the new send included |
| StatsWindow.RecentBucketsAreTrue | core/send_stats.py:194-224 | every hourly bucket that begins after the cutoff shows the true number of sends although the log is pruned |
| StatsWindow.MatrixCountsHistory | core/group_send_stats.py:56-155 | for distinct accounts the grand total is the sum of the rows and the number of group sends in the full history since each account's cutoff: retention loses nothing |
| StatsWindow.SendStep | core/send_stats.py:136-152 | recording a send, with its pruning, keeps the log true from the cutoff on and the cached total true for its cutoff |
| StatsWindow.CountStep | core/send_stats.py:227-249 | so does counting, with its pruning |
| StatsWindow.GroupSendStep | core/group_send_stats.py:56-69 | so does recording a group send: eight days reach behind every cutoff |
| StatsWindow.AutoResetStep | core/stats_reset.py:205-262 | so does a rollover with its cache invalidations |
| StatsWindow.SlotStep | core/send_stats.py:94-249 | whatever happens to any account keeps every account's logs true and its cutoff from moving back |
| StatsWindow.RunKeepsInv | core/send_stats.py:94-249 | and so does every run |
| StatsEffects.CountIsPlain | core/send_stats.py:104-133 | the count of the model is the plain one that goes through the log |
| StatsEffects.KindedCountsAreTrue | core/send_stats.py:227-249 | main result: after every run a count by kind is the number of sends of that kind since the cutoff in the full history, and the two kinds make up all sends |
| StatsEffects.SendCountsOnce | core/send_stats.py:136-152 | a send named forward raises the count of forwards of its account by one, any other send that of campaign posts, and no count of another account changes |
| StatsEffects.RunIsSound | core/send_stats.py:94-249 | after every run the logs are true and no cached total is from the future |
| StatsEffects.AnswerIs | core/send_stats.py:227-249 | a total cached less than 30 seconds ago is answered as cached; every other answer is the number of sends in the full history |
| StatsEffects.TotalsExpire | core/send_stats.py:233-234 | main result on staleness: after every run, 30 seconds of waiting make every total true |
| StatsEffects.TotalsAreHeld | core/send_stats.py:233-234 | until then the total is that of the last send, whatever is reset in between |
| StatsEffects.CountsAreHeld | core/send_stats.py:233-249 | a total that is counted is held for 30 seconds as well |
| StatsEffects.InvalidationClears | core/send_stats.py:94-101 | invalidating everything makes every total true; invalidating one account does so only if its name is a single character, and for the accounts whose name begins with it |
| StatsEffects.SendPrunesToCutoff | core/send_stats.py:136-152 | after a send the stored log is exactly the full history since the cutoff |
| StatsEffects.GroupSendPrunesToEightDays | core/group_send_stats.py:56-69 | after a group send the stored log is exactly the full history of the last eight days |
| StatsEffects.CellsAreTrue | core/group_send_stats.py:93-155 | main result on cells: after every run, a cell of the matrix is the number of sends of the account to that group since its cutoff in the full history |
| StatsEffects.GroupSendCountsOnce | core/group_send_stats.py:56-121 | a group send raises the cell of its group and account by one and no other cell |
| StatsEffects.ResetTakesEffect | core/stats_reset.py:174-202 | in every run a second reset moves the cutoffs it concerns to now exactly if two seconds have passed |
| StatsEffects.FirstResetTakesEffect | core/stats_reset.py:174-202 | the first reset of an account always does |
| StatsEffects.RolloverRestartsIff | core/stats_reset.py:205-262 | main result: in every run a poll restarts the count of an account exactly when the global reset, or else its own, is on file for 24 hours, and leaves every other cutoff |
| StatsEffects.WholeRolloverClears | core/stats_reset.py:255-262 | a rollover of everything also makes every total true |
| AccountShutdown.ShutdownList.PutOnShutdownList | core/account_shutdown.py:117-139 | the account is entered from now with the given reason, reads as shut down until the duration is over and no longer; no other entry changes; an empty account is refused |
| AccountShutdown.ShutdownList.ClearShutdown | core/account_shutdown.py:142-153 | removes exactly that account and tells whether there was one |
| AccountShutdown.ShutdownList.PurgeExpired | core/account_shutdown.py:169-188 | removes and reports exactly the expired entries, and no reader, now or later, sees a difference |
| AccountShutdown.ActiveUntil | core/account_shutdown.py:44-83 | an entry reads as active until its resume time, or without one for seven days from its start |
| AccountShutdown.GetLastPostTimestamp | core/send_stats.py:155-179 | the loops over both logs compute the last post |
| AccountShutdown.LastPostOldIffAllOld | core/account_shutdown.py:227-245 | the last post is old exactly when every retained post of both logs is; there is none exactly when both logs are empty |
| AccountShutdown.LastPostIs | core/account_shutdown.py:227-245 | the last post is one of the posts of both logs and none is later |
| AccountShutdown.IdleTimeIs | core/account_shutdown.py:224-260 | the idle time is the time since the later of the last post and the known start, or else since the cutoff; without being expected to post an account is never idle |
| AccountShutdown.ShutDownIff | core/account_shutdown.py:208-260 | the verdict without its branches: an account that should post is shut down exactly when all posts, the known start and, with neither, the cutoff are old enough |
| AccountShutdown.ReasonFollowsReference | core/account_shutdown.py:238-258 | which reason is given, and that it carries the full hours of the idle time |
| AccountShutdown.ShutDownOnlyIdleAccounts | core/account_shutdown.py:208-260 | over every run, a shut-down account has no post in the unpruned histories that is at or after the cutoff and younger than the threshold, and no recent known start |
| AccountShutdown.VerdictsDifferIff | core/account_shutdown.py:227-260 | the verdict on part of the posts against the verdict on all of them, in both directions |
| AccountShutdown.PrunedVerdictIff | core/account_shutdown.py:208-260 | main result: over every run, an account shut down on its pruned logs would be on the full histories exactly when no post ever recorded is younger than the threshold; the converse exactly when a post is left, the start is known or the cutoff is old enough; with a cutoff that old the two verdicts agree |
| AccountShutdown.ShutDownAnHourAfterPost | core/account_shutdown.py:227-245 | a run of one post, a reset and a count after which a running account is shut down one hour after that post |
| JoinCycle.Iso | core/join_cycle.py:63-80 | a stored time reads back as the whole second at or before it |
| JoinCycle.Prune | core/join_cycle.py:132-142 | keeps exactly the joins inside the window |
| JoinCycle.JoinCycleStore.EvaluateJoinNow | core/join_cycle.py:226-304 | rolls the day over, prunes, saves, and decides by the first check that refuses, with its wait |
| JoinCycle.JoinCycleStore.RecordJoinSuccess | core/join_cycle.py:314-325 | the join is counted for today and appended to the pruned list |
| JoinCycle.JoinCycleStore.RecordJoinFailure | core/join_cycle.py:329-348 | the group's count rises by one and the suggested backoff lies in the tier of the new count |
| JoinCycle.JoinCycleStore.RecordJoinAttempt | core/join_cycle.py:307-311 | only the time of the last attempt changes |
| JoinCycle.JoinCycleStore.SetJoinRestriction | core/join_cycle.py:152-157 | only the restriction changes, to the whole second |
| JoinCycle.JoinCycleStore.ClearJoinRestriction | core/join_cycle.py:161-165 | only the restriction goes |
| JoinCycle.EvaluatedIsFaithful | core/join_cycle.py:132-149 | the state a decision is made on shows exactly today's joins and the joins in the window, out of the whole history |
| JoinCycle.AllowedIff | core/join_cycle.py:226-304 | a join is allowed exactly when, counted over the whole history, every limit leaves room and nothing restricts it |
| JoinCycle.SuccessIsFaithful | core/join_cycle.py:314-325 | recording a join keeps the stored state true to the history, also past midnight |
| JoinCycle.SuccessStaysWithinLimits | core/join_cycle.py:257-302 | a join under a permit fits into every window, every day and the minimum interval |
| JoinCycle.AdvanceKeepsPermit | core/join_cycle.py:226-304 | a permit stays good however late the join is recorded, also on the next day |
| JoinCycle.StepKeepsInv | core/join_cycle.py:132-348 | every step keeps state, permit and limits |
| JoinCycle.LimitsHoldOverRuns | core/join_cycle.py:226-325 | main result: if each join is recorded under a permit, every window of the burst length holds at most the burst maximum, every IST day at most the daily limit, a join follows the last one by the minimum interval less at most the fraction of a second of the last, and the daily counter and the pruned list are the true ones |
| JoinCycle.FirstJoin | core/join_cycle.py:226-325 | a run that joins at a chosen instant |
| JoinCycle.EarlyJoinIff | core/join_cycle.py:291-304 | a join is allowed before the interval is over exactly when all other checks pass and no more is missing than the fraction of a second of the last join |
| JoinCycle.IntervalKeptAfterWholeSecond | core/join_cycle.py:63-80 | after a join on a whole second every allowed join keeps the interval; after any other join the first allowed one comes early |
| JoinCycle.GapMayFallShortOfInterval | core/join_cycle.py:226-325 | from every start within a second a run of two joins that are apart by the interval less that fraction |
| JoinCycle.IntervalKeptIff | core/join_cycle.py:226-325 | main result: a profile keeps the full interval over every run exactly when it admits one join to a window, which no built-in profile does |
| JoinCycle.OldestIsMember | core/join_cycle.py:276 | the oldest recent join is one of them and none is older |
| JoinCycle.WaitSuffices | core/join_cycle.py:270-302 | after the wait reported for a burst or a minimum interval, with nothing else happening, that reason no longer refuses |
| JoinCycle.RestrictionWaitFallsShortIff | core/join_cycle.py:237-245 | after the wait reported for a restriction the account is still restricted exactly when the rest was not a whole number of seconds |
| JoinCycle.BackoffIsForever | core/join_cycle.py:248-255 | a group that reached the failure cap is refused after every further run |
| JoinEffects.WindowIs | core/join_cycle.py:132-142 | the joins kept by the pruning are those of the last two hours |
| JoinEffects.StepRecords | core/join_cycle.py:152-348 | what each step does to the restriction, to the failures of any group and to the last attempt |
| JoinEffects.StateFollowsSteps | core/join_cycle.py:152-348 | main result: over every run the stored restriction is the last one set and not cleared, the failures of a group are those recorded, and the last attempt is the last one made |
| JoinEffects.DecisionIs | core/join_cycle.py:226-304 | main result: in every run the first failing check, counted over the steps and joins of the whole run, gives the reason, the join is allowed exactly if none fails, and the wait is the one that goes with the reason |
| GroupAssignment.IndexOf | core/group_assignment.py:63 | the first position of the account among the partition |
| GroupAssignment.SlicePositions | core/group_assignment.py:64 | a slice holds the positions k, n + k, 2n + k and so on up to the end of the list, in order |
| GroupAssignment.SlicesAreBalanced | core/group_assignment.py:50-64 | any two slices differ in size by at most one |
| GroupAssignment.SliceSizesSum | core/group_assignment.py:50-64 | the sizes of all slices add up to the list |
| GroupAssignment.ActiveSlotsAre | core/group_assignment.py:30-36 | the active accounts are exactly the configured ones that are logged in, each once and in their order |
| GroupAssignment.SliceIs | core/group_assignment.py:30-64 | main result: of n logged-in accounts the one with k before it gets the groups at positions k, n + k, 2n + k and so on, hence some group if the list has as many as there are accounts; any other account gets nothing |
| GroupAssignment.SlicesRebuildMaster | core/group_assignment.py:34-64 | main result: with a configured account logged in there is one slice for each such account, and dealing the slices back out in turn rebuilds the master list, so they are disjoint, cover it and keep its order |
| GroupAssignment.OnlyActiveSlotsGetGroups | core/group_assignment.py:57-61 | an account that is logged out or not configured gets nothing |
| GroupsStore.GroupsStoreFiles.InvalidateMasterCache | core/groups_cache.py:18-24 | both levels of the cache are emptied |
| GroupsStore.GroupsStoreFiles.SetMasterCache | core/groups_cache.py:27-33 | the list is cached from now and every slice is dropped |
| GroupsStore.GroupsStoreFiles.LoadMasterGroups | core/groups_cache.py:36-48 | a fresh list is served from the cache, else the file is read and cached |
| GroupsStore.GroupsStoreFiles.GetCachedSlice | core/groups_cache.py:51-61 | a fresh slice is served from the cache, else computed and cached |
| GroupsStore.GroupsStoreFiles.GroupsReadonlySnapshotForSlot | core/groups_store.py:301-306 | the two levels one after the other |
| GroupsStore.GroupsStoreFiles.SaveMasterGroups | core/groups_store.py:189-196 | file and cache both hold the new list |
| GroupsStore.GroupsStoreFiles.RemoveFromMasterGroups | core/groups_store.py:223-268 | writes the list without the named groups if any is on it, and reports the counts |
| GroupsStore.Split | core/groups_store.py:235-241 | the loop divides the list into kept and removed groups, losing none |
| GroupsStore.GroupsStoreFiles.SaveAccountInfo | core/account_info_store.py:151-165 | a login without a phone or for an unknown account changes nothing; a new login file empties the cache |
| GroupsStore.GroupsStoreFiles.ClearAccountInfo | core/account_info_store.py:168-175 | a logout removes the file and empties the cache |
| GroupsStore.SnapshotIsDirect | core/groups_store.py:301-306 | while the cache agrees with the files, a snapshot is the slice computed afresh |
| GroupsStore.StepKeepsCoherent | core/groups_cache.py:18-61 | every save, removal, login, logout, load, snapshot and wait keeps that agreement |
| GroupsStore.SnapshotsNeverStale | core/groups_store.py:189-306 | main result: after every run a snapshot is exactly the slice of the list on disk under the present logins, whatever the two caches hold |
| GroupsStore.RemovalActsOnDisk | core/groups_store.py:223-268 | a removal, though it works on the cached list, takes exactly the named groups off the list on disk and reports true counts |
| GroupsStore.GroupNameIs | core/groups_store.py:199-200 | a name in any case, with or without one @ and white space around it, stands for its lower-case form |
| GroupsStore.RemovalKeepsTheUnnamed | core/groups_store.py:223-268 | main result: after every run a removal leaves on disk exactly the groups named in no spelling, in their order, and every snapshot is taken of what is left |
| GroupsStore.SaveTakesEffect | core/groups_store.py:189-196 | after every run a save puts exactly the list on disk and before every snapshot |
| GroupsStore.LogoutTakesEffect | core/account_info_store.py:168-175 | after every run a logout takes that login file and no other, and the account's groups with it |
| GroupsStore.LoginTakesEffect | core/account_info_store.py:151-165 | after every run a login of a configured account whose phone is known puts it on file, and the account has a share of every list as long as the number of logins; any other login changes nothing |
| GroupsStore.ReadsAgainIff | core/groups_cache.py:36-61 | the list is read again exactly when none is cached or it is 45 seconds old; a second snapshot within that time changes nothing |
| SmartEngine.GroupIntelligence.Group | core/smart_engine.py:119-121 | asking for a group creates its entry and changes no other |
| SmartEngine.GroupIntelligence.IsRisky | core/smart_engine.py:147-155 | tells whether the stored deadline lies ahead |
| SmartEngine.GroupIntelligence.RecordJoinOutcome | core/smart_engine.py:192-201 | attempts, successes and membership after an outcome |
| SmartEngine.GroupIntelligence.RecordResult | core/smart_engine.py:207-247 | group entry and account after a result |
| SmartEngine.GroupIntelligence.ScoreGroup | core/smart_engine.py:209-244 | the group's counters, its score and its deadline |
| SmartEngine.GroupIntelligence.CountResult | core/smart_engine.py:212-239 | the account's totals and health, branch by branch |
| SmartEngine.GroupIntelligence.BumpHealth | core/smart_engine.py:249-252 | health moves by the step, is held within 0 to 100, and is rounded |
| SmartEngine.GroupIntelligence.SyncDelayMultiplier | core/smart_engine.py:254-267 | the multiplier of the health tier, at least the floor of the profile |
| SmartEngine.RoundingIsExact | core/smart_engine.py:252 | rounding to one decimal changes no multiple of one half |
| SmartEngine.BumpKeepsHalfSteps | core/smart_engine.py:215-252 | health stays in 0 to 100 on multiples of one half, so rounding loses nothing |
| SmartEngine.StepKeepsGroup | core/smart_engine.py:192-247 | every step keeps a group's entry equal to what its events imply |
| SmartEngine.StepKeepsAccount | core/smart_engine.py:207-252 | every step keeps the account totals equal to the sums over all groups |
| SmartEngine.LastTripIsLatest | core/smart_engine.py:243-244 | the one stored deadline speaks for all earlier ones |
| SmartEngine.TotalsAreConserved | core/smart_engine.py:192-252 | main result: over every run, group successes and failures sum to the account totals, a score is successes minus failures, rate limits are failures, join successes are join attempts, and health stays on exact half steps |
| SmartEngine.RiskyIffRecentTrip | core/smart_engine.py:147-247 | main result: a group is risky exactly when some result of the last 24 hours left it with more than the permitted run of failures |
| SmartEngine.WorseHealthSlowsDown | core/smart_engine.py:254-267 | worse health never lowers the delay multiplier, rounding included |
| SmartEngine.ResultTakesEffect | core/smart_engine.py:207-247 | main result on results, code by code: counters, score, retries, deadline and rate limits after a result, every other group unchanged |
| SmartEngine.HealthAfterResult | core/smart_engine.py:212-252 | main result on health: over every run a success raises it by 1.5, a flood costs 8, a dead group 2, any other failure 3 and a skip nothing, within 0 to 100 |
| SmartEngine.HealthOrder | core/smart_engine.py:212-252 | a success never lowers health, nothing else raises it, and a flood costs most |
| SmartEngine.JoinTakesEffect | core/smart_engine.py:192-201 | what a join outcome does, code by code; account and other groups keep |
| SmartEngine.RateLimitsAreFloods | core/smart_engine.py:227-228 | over every run the rate limits are the floods recorded |
| SmartEngine.RoundIsNearest | core/smart_engine.py:252-267 | rounding goes to the nearest integer, and from halfway to the even one |
| SmartEngine.DelayIs | core/smart_engine.py:254-267 | the multiplier is 1, 1.12, 1.35 or 1.6 for health from 70, 50, 30 or below, or the floor if that is larger |
| ForwardIntelligence.FloodTracker.AddFloodEvent | core/forward_intelligence.py:109-127 | the flood is appended, the history trimmed to the window and the last 100, and a critical flood sets the cooldown |
| ForwardIntelligence.RanksOrderIntervals | core/forward_intelligence.py:19-25 | a more cautious profile has longer intervals at both ends, and conversely |
| ForwardIntelligence.TimeNeverTightens | core/forward_intelligence.py:162-213 | waiting never makes the recommendation more cautious |
| ForwardIntelligence.NothingTrimmed | core/forward_intelligence.py:118-123 | below 100 floods in the window, recording one changes each count by that flood alone |
| ForwardIntelligence.FloodNeverRelaxes | core/forward_intelligence.py:109-213 | below 100 floods in the window, in whatever order, recording one never makes the present recommendation less cautious |
| ForwardIntelligence.ProfileDropsIff | core/forward_intelligence.py:185-213 | with no fewer floods and no cooldown lost, a profile drops exactly when the heavy floods go from two to one and nothing else decides |
| ForwardIntelligence.FloodRelaxesIff | core/forward_intelligence.py:109-213 | main result: recording a flood makes the present recommendation less cautious exactly when a full history loses one of its only two heavy floods to one that is not heavy and neither cooldown nor health decides |
| ForwardIntelligence.FullHistoryMayRelax | core/forward_intelligence.py:118-123 | two heavy floods and 98 light ones after them: one more light flood turns the cooldown profile into the conservative one |
| ForwardIntelligence.BurstRelaxes | core/forward_intelligence.py:109-213 | a run that records these floods and then relaxes |
| ForwardIntelligence.FloodRelaxesLaterIff | core/forward_intelligence.py:109-213 | seen from the present and all later times and for every health, recording a flood is never less cautious exactly unless it shortens a running cooldown or pushes out one of two heavy floods that would outlast it |
| ForwardIntelligence.FloodRelaxesIffOverRuns | core/forward_intelligence.py:109-213 | main result: both conditions hold of every state of every run |
| ForwardIntelligence.FilterIsTail | core/forward_intelligence.py:118-123 | in time order, what the window keeps is a tail of the history |
| ForwardIntelligence.RecordKeepsInv | core/forward_intelligence.py:109-127 | the kept floods are always the latest; what is missing is too old or lies behind 100 kept ones |
| ForwardIntelligence.CountsAreTrueUpTo100 | core/forward_intelligence.py:162-165 | main result: over every run, the floods counted in the last one to six hours are the smaller of 100 and all floods ever recorded in that time |
| ForwardIntelligence.HeavyCountsAreTrueIff | core/forward_intelligence.py:167-173 | over every run, the heavy floods counted are all of that time exactly when none lies behind the kept ones, and with fewer than 100 floods in that time none does |
| ForwardIntelligence.WithinIs | core/forward_intelligence.py:162-173 | the floods and heavy floods counted are those of the last hours by plain age, heavy from five minutes on |
| ForwardIntelligence.ProfileIff | core/forward_intelligence.py:185-213 | each profile by its exact condition on cooldown, health, heavy floods of six hours and floods of one hour |
| ForwardIntelligence.HealthTightensIff | core/forward_intelligence.py:185-213 | better health makes the recommendation more cautious exactly when no cooldown runs, the poor health is gone and two heavy floods lie in the last six hours |
| ForwardIntelligence.HealthMayTighten | core/forward_intelligence.py:195-201 | a run of two heavy floods after which health 39 gives conservative and health 41 cooldown |
| ForwardIntelligence.RecommendationFollowsHistory | core/forward_intelligence.py:162-213 | main result: over every run with fewer than 100 floods in six hours the recommendation follows the floods ever recorded |
| ForwardIntelligence.CooldownFollowsHistory | core/forward_intelligence.py:125-127 | over every run the cooldown is one and a half times the last flood of at least a day, from its time on |
| ForwardIntelligence.IntervalsAre | core/forward_intelligence.py:19-25 | the intervals of the profiles in minutes |
| DmStore.Find | core/dm_store.py:108-113 | the first message with the id, if any |
| DmStore.FindMessage | core/dm_store.py:108-113 | the search loop finds that message |
| DmStore.DmInbox.AppendMessage | core/dm_store.py:234-374 | a repeated id fills in media details only; a new message is appended, the list trimmed and the unread count raised or cleared |
| DmStore.DmInbox.UpdateOutboundStatus | core/dm_store.py:484-509 | an outbound message takes a status it may advance to, and is returned as shown; anything else changes nothing |
| DmStore.DmInbox.MarkConversationRead | core/dm_store.py:516-524 | clears the unread count of that conversation only |
| DmStore.DmInbox.MarkOutgoingReadUpTo | core/dm_store.py:614-632 | exactly the outbound messages with ids up to the given one become read, and exactly those that were not are returned |
| DmStore.DmInbox.MarkAllOutgoingRead | core/dm_store.py:635-648 | every outbound message becomes read, and those that were not are returned |
| DmStore.DmInbox.MigrateLegacySentToDelivered | core/dm_store.py:666-680 | every outbound message stored as sent becomes delivered and is returned |
| DmStore.InferOutgoingRead | core/dm_store.py:651-663 | outbound messages become read exactly when the contact wrote last, and those that change are returned |
| DmStore.DmInbox.GetMessages | core/dm_store.py:683-705 | what is stored afterwards, with and without persisting, and what is shown |
| DmStore.DmInbox.ListConversations | core/dm_store.py:581-601 | shows every conversation's unread count after repairing exactly those where we wrote last |
| DmStore.RepeatChangesNothing | core/dm_store.py:319-357 | a repeated append keeps length, order, ids, directions, statuses and the unread count |
| DmStore.AppendKeepsInv | core/dm_store.py:102-105 | an append, with or without a Telegram id, keeps the bound and the meaning of the unread count |
| DmStore.AppendKeepsIdsDistinctIff | core/dm_store.py:271-360 | an append keeps the ids distinct exactly when it is a repeat or takes an id that no message left after trimming has |
| DmStore.StepKeepsInv | core/dm_store.py:234-705 | so does every step |
| DmStore.ConversationsStaySound | core/dm_store.py:234-603 | main result: over every run a conversation has at most 300 messages, its unread count is the number of counted incoming messages since the last reply or mark-read, and the repair never fires |
| DmStore.IdsStayDistinctIff | core/dm_store.py:271-360 | main result: throughout a run the ids of a conversation stay distinct exactly when every append takes a fresh id |
| DmStore.TelegramIdsStayDistinct | core/dm_store.py:320 | in runs with Telegram ids only, every append does |
| DmStore.DistinctIdsAreHeldOnce | core/dm_store.py:108-113 | while the ids are distinct, an id finds the one message that has it |
| DmStore.ClockIdsMayCollide | core/dm_store.py:271 | from any time on, two messages without Telegram ids in one millisecond share an id |
| DmStore.StepProgresses | core/dm_store.py:484-705 | every step but the append of a new message keeps the messages and loses no delivered status |
| DmStore.AppendKeepsMessage | core/dm_store.py:359-360 | a message that a new append leaves stored is unchanged and still the one found by its id, unless the new one takes that id |
| DmStore.StepNeverDrops | core/dm_store.py:234-705 | no step lowers a message that was delivered, as found by its id |
| DmStore.StepCarries | core/dm_store.py:234-705 | whatever the step, the messages but for the oldest dropped stay in their order and lose no delivered status |
| DmStore.DeliveredKeepsItsPlace | core/dm_store.py:234-705 | main result: from any inbox and over every run, all messages but the oldest dropped stay the same messages in the same order before the new ones; once delivered they never drop below delivered, and once read they stay read |
| DmStore.DeliveredStaysDelivered | core/dm_store.py:484-705 | main result by id: while an outbound message stays stored under an id that no other message has or takes from the clock, once delivered it never drops below delivered, and once read it stays read |
| DmEffects.UpdateTakesEffectIff | core/dm_store.py:484-509 | main result on updates: the outbound message found by its id takes the reported status exactly when that takes the place of the one it has, status by status, and nothing else changes |
| DmEffects.ReceiptsTakeEffect | core/dm_store.py:58-61 | a read receipt always leaves an outbound message read, a delivery receipt delivered or read, and a failure takes effect only from sending, sent or no status |
| DmEffects.ReadUpToTakesEffect | core/dm_store.py:614-632 | exactly the outbound messages with ids up to the given one become read, message by message |
| DmEffects.ReadAllTakesEffect | core/dm_store.py:635-648 | every outbound message becomes read, message by message |
| DmEffects.MigrationTakesEffect | core/dm_store.py:666-680 | exactly the outbound messages stored as sent become delivered, and none is left |
| DmEffects.FetchTakesEffect | core/dm_store.py:683-705 | fetching stores that migration, or all outbound messages as read if the contact wrote last and hints are kept |
| DmEffects.ShownStatuses | core/dm_store.py:64-72 | no outbound message is shown as sent or without a status, and all are shown as read if the contact wrote last |
| DmEffects.ListingTakesEffect | core/dm_store.py:581-601 | listing clears the unread count of exactly the conversations in which we wrote last |
| DmEffects.MarkSeenTakesEffect | core/dm_store.py:516-524 | marking one conversation read clears its unread count and no other |
| DmEffects.RepeatTakesEffect | core/dm_store.py:319-357 | main result on repeats: a stored Telegram id fills in media details, and a missing text with them, of a message that has none, and changes nothing else |
| DmEffects.AppendTakesEffect | core/dm_store.py:234-374 | main result on appends: any other message goes in at the end under its id or the clock's, the oldest of 300 goes out, a counted incoming one raises the unread count and our own clears it |
| DmEffects.HoldsTheLast300 | core/dm_store.py:102-105 | over every run a conversation holds all new messages, up to the last 300 |
| StructuredLogging.SortKeys | core/structured_logging.py:110 | lists the keys in code-point order, each once |
| StructuredLogging.FormatFields | core/structured_logging.py:106-115 | the line is the join of the printed non-null fields in key order |
| StructuredLogging.ListingIsUnique | core/structured_logging.py:110 | there is only one such order, so the line depends on the fields alone |
| StructuredLogging.ReadEscaped | core/structured_logging.py:100-102 | reading up to the closing quote undoes the escaping of any text |
| StructuredLogging.ReadPrinted | core/structured_logging.py:92-103 | whatever follows a printed value, the reader finds its end and its text |
| StructuredLogging.PartsArePrinted | core/structured_logging.py:106-115 | the program prints each field as the item the reader expects |
| StructuredLogging.DecodeRenderIff | core/structured_logging.py:92-115 | main result: a left-to-right reader recovers the printed items, whatever the values hold, exactly when no key contains an equals sign |
| StructuredLogging.FieldsRoundTripIff | core/structured_logging.py:106-115 | main result: reading the line back gives exactly the non-null fields, sorted, with their stripped texts, exactly when no key of one contains an equals sign |
| StructuredLogging.SameLineSameFields | core/structured_logging.py:106-115 | so two field maps that print alike hold the same texts |
| StructuredLogging.EqualsInKeyIsAmbiguous | core/structured_logging.py:114 | two different field lists with an equals sign in a key that print the same |
| StructuredLogging.LineRoundTrip | core/structured_logging.py:118-133 | a whole line, with or without cycle and fields, can be taken apart again |
| StructuredLogging.PrintedBareIff | core/structured_logging.py:92-103 | a value is printed as it is exactly if it holds text without blanks, equals signs, bars and quotes; any other stands in double quotes |
| PostingMode.PrivateMatchIsTail | core/posting_mode.py:50-53 | what the private pattern takes out are the last two segments of the link |
| PostingMode.PublicMatchIsTail | core/posting_mode.py:46-49 | what the public pattern takes out are the last two segments of the link |
| PostingMode.LastSegment | core/posting_mode.py:158 | the last part of a split at slashes: the end of the text, without a slash, and with one before it |
| PostingMode.PublicLinkIsRead | core/posting_mode.py:151-155 | a public link, in any spelling of scheme and host, gives its user name and message |
| PostingMode.PrivateLinkIsRead | core/posting_mode.py:144-149 | a private link gives its channel without leading zeros and its message |
| PostingMode.PrivateLabelReadsBack | core/posting_mode.py:157-168 | the label of a private post is read as the same post |
| PostingMode.PublicLabelReadsBack | core/posting_mode.py:157-168 | the label of a public post is read as the same post, or as a private one if its user name is all digits |
| PostingMode.DigitUserIff | core/posting_mode.py:151-168 | a link gives an all-digit user exactly when it is a public link with an all-digit name |
| PostingMode.LabelIsCanonicalIff | core/posting_mode.py:135-172 | main result: whenever a link is accepted, parsing its label gives the same peer, message and label exactly when the link does not name an all-digit user |
| PostingMode.LabelsSettle | core/posting_mode.py:135-172 | a label is always accepted, and its own label is canonical |
| PostingMode.NoPeerIff | core/posting_mode.py:157-172 | main result: the index error is raised exactly for a number with slashes behind it |
| PostingMode.NumberAndSlashHasNoPeer | core/posting_mode.py:157-161 | every number and one slash raise it |
| PostingMode.OneTwoThreeHasNoPeer | core/posting_mode.py:157-161 | the link 123/ raises it |
| PostingMode.PublicLinkInAnyCase | core/posting_mode.py:46-49 | main result: a public link, with scheme and host in any case and white space around it, gives its user and message |
| PostingMode.PrivateLinkInAnyCase | core/posting_mode.py:50-53 | the same for a private link and its channel |
| PostingMode.OtherPathIsRead | core/posting_mode.py:157-168 | any other path that ends in a segment and a number, with or without slashes behind them, gives the segment as a user or, if it is all digits, as a private channel |
| PostingMode.MissingIff | core/posting_mode.py:140-142 | a link is reported missing exactly if it is blank |
| MessageRewrite.Shuffle | core/message_rewrite.py:163 | any shuffle keeps the multiset of lines |
| MessageRewrite.FlushBullets | core/message_rewrite.py:158-165 | the collected bullets are appended in some order |
| MessageRewrite.FlushCompletesRun | core/message_rewrite.py:158-184 | a flush completes exactly the run of consecutive bullets since the last line that stayed |
| MessageRewrite.RewriteLines | core/message_rewrite.py:154-184 | main result: for any random choices, contact lines stay verbatim in place, every other line that is not a bullet keeps its place, and each run of bullets is a permutation of its own rewritten bullets |
| MessageRewrite.StripJoined | core/message_rewrite.py:185 | stripping the joined text strips only the outer ends of its first and last lines |
| MessageRewrite.ContactLinesSurvive | core/message_rewrite.py:148-185 | main result: stripping the rewritten text touches no contact line of a stripped message |
| MessageRewrite.BulletComesFromRun | core/message_rewrite.py:158-176 | a bullet's place is taken by a rewritten bullet of the input |
| MessageRewrite.BulletIff | core/message_rewrite.py:173-176 | a bullet is a line whose first visible character is a bullet, a hyphen, a star or a middle dot |
| Text.StripFixed | core/posting_mode.py:140 | a text without outer blanks is not changed by stripping |
| Text.StripIsMiddle | core/posting_mode.py:140 | stripping takes white space off both ends and nothing else |
| Text.StripSkips | core/posting_mode.py:140 | white space around a text that has none at its ends does not matter |
| Text.LowerIs | core/groups_store.py:199-200 | lowering turns the letters A to Z into a to z and keeps all else |
| Text.NatTextRoundTrip | core/posting_mode.py:146-160 | printing a number and reading it back gives the number |
| Text.LeadingZerosDoNotCount | core/posting_mode.py:146-148 | a leading zero does not change the number read |

## Left out

- Interleavings of two operations between lock regions, lost writes, corrupt or partly written files and the older file formats.
- Times as floating-point seconds: the model has whole milliseconds, so rounding of binary fractions is not captured; health and multipliers are exact reals.
- StatsReset.StatsResetStore.SetResetTimestamp: the join baselines passed in, and the time as ISO text, are display data that no cutoff depends on; they are not modelled.
- StatsReset.StatsResetStore.WriteResetTimestamp: the same data, written beside the time, is not modelled.
- StatsReset.StatsResetStore.MaybeAutoReset24h: the same data is not modelled; the cache invalidation at its end is a step of the runs in `StatsWindow`.
- StatsReset.StatsResetStore.RollOver: the join baseline of each due account is not modelled.
- SendStats.SendHistory.HourlyBuckets: the mode argument and its separate history files, which nothing in the modelled code writes, are not modelled.
- AccountShutdown.ShutdownList.PurgeExpired: the cleared accounts are returned as a set, without the order of the file.
- JoinCycle.JoinCycleStore.EvaluateJoinNow: the message for the reader that comes with a decision is not modelled.
- GroupSendStats.ComputeGroupSendMatrix: `last_sent_at`, the fields that describe the window and the sorting of the rows are not modelled; rows come in order of first appearance.
- GroupsStore.GroupsStoreFiles.RemoveFromMasterGroups: the reported names keep the order of the list, where the source sorts them; the per-account invalid lists and the legacy copy of the list are not modelled.
- GroupsStore.GroupsStoreFiles.SaveAccountInfo: of the login data only the phone is modelled, since it alone decides whether a file is written.
- Reloading the account configuration while the service runs: the configured accounts are fixed, and distinct because they are the keys of a dictionary (core/config.py:142).
- The threshold for shutting an account down is a parameter, since the environment sets it; whether an account is expected to post is an input.
- `partition_summary` and the partition for a single logged-out account.
- SmartEngine: cycle counters, touches, membership hints and the queue ordering by score.
- ForwardIntelligence: dead peers, tick counters, jitter and `should_skip_tick`.
- DmStore.DmInbox.AppendMessage: names, previews, channels, caller-supplied extra fields and the repair of sender labels are not modelled.
- DmStore.DmInbox.GetMessages: the sorting by timestamp and the guessed media types of what is shown are not modelled.
- DmStore.DmInbox.UpdateOutboundStatus: the stored reading time is not modelled.
- DmStore.DmInbox.MarkOutgoingReadUpTo: the stored reading times are not modelled.
- DmStore.DmInbox.MarkAllOutgoingRead: the stored reading times are not modelled.
- DmStore.InferOutgoingRead: the stored reading times are not modelled.
- DmStore.DmInbox.ListConversations: names, previews and the ordering of the list are not modelled.
- Removing and patching messages, moving and deleting conversations: single-record edits that would add easy members.
- StructuredLogging: how values other than truth values turn into text, the choice of the event name, and the log entry dictionary.
- Text.Lower: case folding outside ASCII, and digits outside ASCII in links, are not modelled; neither is the limit on the length of a number text.
- MessageRewrite.RewriteLines: which lines count as contact lines and what the phrase swaps and openers produce are arbitrary inputs; the splitting into lines is not modelled.
- MessageRewrite.ContactLinesSurvive: the swaps are assumed not to blank out a line, and the closing line and batch tag appended after the stripping are not modelled.
- Web routes, Telegram and WhatsApp calls, login, access control and the canned-reply rules.
