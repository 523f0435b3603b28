# Ghostwire Proxy backend: verified model

A Dafny model of the stateful cores of the Ghostwire Proxy API, with proofs about whole runs of them.
`dafny verify dfyconfig.toml` checks everything.

| module | what it models |
|---|---|
| `HealthModel` | one monitored host and its upstream servers as values: probe results, rotation, the host transition, alert planning, and everything else that can happen between two cycles (restart, manual check, saving the servers, the rotation option) |
| `HealthMonitor` | the same loop in its own form: rows updated in place, three in-process maps; every method is proved to do what `HealthModel` says |
| `HealthLoop` | a whole pass over all hosts: check them all, then plan them all, on shared maps |
| `HealthHistory`, `HealthRuns`, `HealthOutages`, `HealthHeld`, `HealthManual` | what holds over whole runs of the health loop |
| `HealthTold`, `HealthExact`, `HealthRotation` | what one step does, in terms of what can be seen before and after it: which alert is given, when a status changes, who is in rotation, what a save keeps |
| `SingleFlight` | `cached_json` as a protocol: any number of calls interleaved at every await, with failures, cancellation and expiry |
| `SingleFlightFaults` | which of those break single flight |
| `Rollups` | hourly, daily and per-country summaries over a traffic log that is pruned under them |
| `FailureLimiter` | the API-key throttle against the plain log of failures |
| `Enrichment` | metered reputation checks: store, cooldown, cleanup, restart |
| `ClientIp` | the right-to-left walk over forwarded hops |
| `CronSlots` | firing each cron occurrence once |
| `AdminMfa` | authenticator codes and backup codes, one use each |
| `LoadBalancing` | validity of an upstream group and the printing of server addresses |
| `Spacing`, `Sequences`, `Text`, `Wrappers` | shared arithmetic, list, text and option definitions |

The cores that update objects in place are classes (`Monitor`, `FailedAttemptLimiter`, `Enricher`, `Tables`,
`Scheduler`, `User`, `ReplayStore`). Their methods are proved equal to specification functions on values, and the
properties of whole runs are proved about those functions. Clock readings, probe results, query results, random
values, the TOTP generator, the cron library and the address library are parameters. In the models of runs, clocks
never run backwards; every property says so where it needs it.
No proof relies on automatic induction: a lemma that needs induction calls itself.

## Findings

These are facts about the code that its comments or documentation do not lead one to expect. Each is proved, with the
exact condition under which it does not arise.

- The downtime reported with a recovery is the time since the previous check, not the length of the outage the comment
  at `backend/app/services/health_service.py:519-520` speaks of. The two agree exactly when no cycle with another clock
  reading came after the one that announced the outage (`HealthOutages.DowntimeIsOutageLengthExactly`); an outage of any
  number of minutes is reported as one (`HealthOutages.LongOutage`).
- A manual check can split an outage into an alert for a server and one for its host. For a server in service that was
  announced up this happens exactly when the check did not reach it and some failing cycle before the confirming one
  finds its flap window open, wherever the process restarts in between (`HealthManual.ManualCheckSplitsExactly`); in the
  next cycle already exactly when, besides, no failing cycle of the process came before the check
  (`HealthManual.NextCycleSplitsExactly`). Otherwise it is grouped with the host once both are confirmed down
  (`HealthManual.OutageAfterManualCheck`).
- Two producers of one cache key can run at once, because a waiter can still be queued on a lock that has left the map.
  Over all interleavings they never do exactly when nothing goes wrong for the key but failed first looks at the cache
  (`SingleFlightFaults.SingleFlightExactly`): a failed second look, a failed write, a null value, a producer that raises, a
  cancelled holder of the lock and a dropped entry each break it alone (`SingleFlightFaults.FaultBreaksSingleFlight`).
- A rollup skips a period that begins before the oldest row there is, and only then (`Rollups.CoveredExactly`). So the
  partial hour or day in which logging began never gets a summary, however long its rows are kept
  (`Rollups.FirstPartialPeriodIsNeverSummarised`). As long as no rows come late and
  passes are no further apart than their window, the one in which logging resumes after a silence as long as the
  retention is the only other that they can miss (`Rollups.RemovedRowsAreCounted`).
- Prune batches are not taken oldest first. A prune that fails between two batches can make a later rollup overwrite a
  complete total with a smaller one exactly when the rollup's window begins before the prune's cutoff
  (`Rollups.InterruptedPruneIsHarmlessExactly`). The hourly passes are out of danger exactly with a traffic retention of
  three days or more (`Rollups.PassesHarmlessExactly`), which the default of 30 days is. The backfill at start-up is out
  of danger exactly when the retention is four days or more and longer than the number of days it goes back, which is
  up to 90 (`Rollups.BackfillHarmlessExactly`).
- At most `max` failures per window, counted since the latest reset, hold of all runs exactly when the requests of a client are handled one at a time
  (`FailureLimiter.MaximumIsKeptExactly`). With up to n of them between check and decision up to max + n - 1 failures are
  recorded, and that many for every max and n (`FailureLimiter.InterleavedRequestsOvershoot`).
- A cron slot fires twice exactly when enabled ticks see it, then another slot, and then it again, each within ten
  minutes of its time (`CronSlots.FiresTwiceExactly`). Changing the expression and changing it back does that
  (`CronSlots.ChangingTheScheduleRepeatsSlot`).
- Authenticator codes are single use only while the claim store can be reached
  (`AdminMfa.RefusedExactlyOnReplay`).

## Model

| member | source | states |
|---|---|---|
| HealthRuns.AlertsPairUp | backend/app/services/health_service.py:322-367 | In every run of cycles, restarts, manual checks, saves and option changes, the announced state of each server is its history replayed; a recovery that goes out closes a drop that went out with no other recovery and no maintenance in between; two sent drops are separated by a recovery or maintenance; nothing is recorded before the server was seen up. |
| HealthRuns.FlapBound | backend/app/services/health_service.py:343-351 | With flap windows of at least W, sent down alerts of one server are at least W apart over the whole run, so a span T holds at most floor(T/W)+1 of them, across restarts, maintenance and edits. |
| HealthRuns.NoOutageForgotten | backend/app/services/health_service.py:318-368 | After any cycle a server in service that is up is announced up; one that is down is announced down, covered by a host that is down, inside its flap window, or nothing was announced of it since it was added or last in maintenance. |
| HealthRuns.PlanningTwiceIsPlanningOnce | backend/app/services/health_service.py:318-368 | Planning again at the same clock with current statuses as previous ones changes nothing and records no event. |
| HealthHeld.HeldAlertsPairUp | backend/app/services/health_service.py:343-361 | In every run without manual checks and edits, flap protection records a drop it holds once, when the drop is seen (the latest event before it is a recovery or none), and records a held recovery only to close a held drop. |
| HealthTold.ReturnToldExactly | backend/app/services/health_service.py:353-367 | In any cycle, for any server in service that is up afterwards and was announced down: exactly one recovery is recorded, grouped exactly when the host's alert had covered the server and the host comes back in this very cycle, sent otherwise. |
| HealthTold.UpToldExactly | backend/app/services/health_service.py:353-361 | A server that is up and was not announced down: a first sighting is noted, a return that ends a held alert is recorded as held, and otherwise nothing is. |
| HealthTold.CoveredToldExactly | backend/app/services/health_service.py:334-342 | A server that is down under a host that is down and was announced up is covered by the host's alert, whatever its flap window. |
| HealthTold.DropToldExactly | backend/app/services/health_service.py:343-351 | A server that is down under a host that is not, announced up or covered before: the alert goes out exactly when the flap window is over; a held one is recorded exactly in the cycle that sees the drop. |
| HealthTold.NothingToldExactly | backend/app/services/health_service.py:330-342 | In all other cases of a server in service nothing is recorded and nothing announced changes. |
| HealthTold.MaintenanceForgets | backend/app/services/health_service.py:322-329 | A server in maintenance loses what was announced of it, keeps the time of its last sent alert and gives no alert; a disabled one keeps everything. |
| HealthTold.EveryNoteIsExplained | backend/app/services/health_service.py:301-368 | In every run of any steps each event on record has the clock reading of a cycle: grouped returns only of one in which the host came back, grouped drops only of one that found the host down, sent and held drops only of one that did not. |
| HealthRuns.SaveKeepsRecords | backend/app/api/routes/proxy_hosts.py:73-93 | Saving the server list (moving, adding, dropping, toggling rows) keeps each kept server's announced state equal to its history. |
| HealthRuns.RunKeepsRecords | backend/app/services/health_service.py:301-368 | The invariant behind the two theorems above, over any steps. |
| HealthHistory.HistoryPairsUp | backend/app/services/health_service.py:325-367 | Every history the alert automaton accepts has its recoveries, drops and sightings paired. |
| HealthOutages.WholeOutageAnnouncedOnce | backend/app/services/health_service.py:319-364 | From a healthy host, through any number of failing cycles and restarts, to the cycle where a server answers again: one host-down, one host-recovered, and for each covered server one grouped drop and one grouped return, nothing sent. |
| HealthOutages.OutageCoversItsServers | backend/app/services/health_service.py:319-342 | In every run without manual checks whose saves add and switch no server (they may reorder, drop and move some), a cycle that finds the host down has every server in service confirmed down, sends no down alert for any of them, and groups exactly those still announced up. |
| HealthOutages.RecoveryCoversItsServers | backend/app/services/health_service.py:334-365 | In the recovery cycle a covered server that answers is grouped; one that stays down gets its own alert unless its flap window holds it. |
| HealthOutages.RunKeepsCoupling | backend/app/services/health_service.py:494-508 | Over such runs the host's failure counter never exceeds that of a server in service, and a host that is down has every server in service down, or moved and not probed since. |
| HealthOutages.SaveKeepsCoupling | backend/app/api/routes/proxy_hosts.py:73-93 | A save that adds and switches no server keeps that, whatever it reorders, drops or moves. |
| HealthOutages.AnnouncementsAlternate | backend/app/services/health_service.py:491-522 | Host announcements alternate down, back, down, ... across restarts; the stored status is down exactly when the last one is a down; a host that is not down has a counter of at most 1. |
| HealthOutages.HostDownIffTwoFailures | backend/app/services/health_service.py:494-506 | A cycle announces the host down exactly when it fails right after another failing cycle of the same process and the host was not down. |
| HealthExact.HostStatusExactly | backend/app/services/health_service.py:481-508 | After a cycle a host is up exactly when an enabled server outside maintenance answered, or the backend itself when no server is enabled; otherwise it is down exactly when it was or the cycle before failed too. |
| HealthExact.HostNewsExactly | backend/app/services/health_service.py:508-522 | What is announced of the host, from its status before and after; only a recovery leaves the time of the last check alone. |
| HealthExact.ServerStatusExactly | backend/app/services/health_service.py:168-187 | A cycle leaves an enabled server up exactly when it answered; one that did not is down exactly when it was, was unknown, or failed the probe before too; others keep status and counter. |
| HealthExact.ManualCheckExactly | backend/app/services/health_service.py:249-278 | A manual check writes the raw result into the enabled servers and touches nothing else of the host. |
| HealthExact.SaveExactly | backend/app/api/routes/proxy_hosts.py:73-93 | A save makes one row of each item, in order: the saved row with its id, health and announced state kept but status and automatic flag forgotten when it moves; or a new row, when no row has the id or an earlier item took it. |
| HealthOutages.CounterMeansLastCycleFailed | backend/app/services/health_service.py:494-501 | The host's counter is positive exactly when the latest cycle of this process failed. |
| HealthOutages.ReportedDowntime | backend/app/services/health_service.py:510-522 | The downtime of a recovery is the time since the previous check of the host. |
| HealthOutages.DowntimeIsOutageLengthExactly | backend/app/services/health_service.py:510-522 | The reported downtime is the time since the outage was announced exactly when the latest check is the announcing one (or has its clock reading). |
| HealthOutages.LongOutage | backend/app/services/health_service.py:510-522 | An outage that goes on for any number of minutes is reported as one minute. |
| HealthRotation.AutoDownIsSafeMaximalStable | backend/app/services/health_service.py:190-214 | With the option on: something stays in rotation if something was; afterwards no confirmed-down server is in rotation, or exactly one server is; the result is true exactly when a flag changed; a second pass changes nothing. Who returns and who leaves is in the four rows below. |
| HealthRotation.RestoreExactly | backend/app/services/health_service.py:203-206 | The first loop takes the flag off exactly the enabled servers that are up and changes nothing else. |
| HealthRotation.AnsweringServersReturn | backend/app/services/health_service.py:203-206 | With the option on, every server in service that is up is in rotation afterwards. |
| HealthRotation.FlagsMoveExactly | backend/app/services/health_service.py:203-213 | A flag falls exactly for an enabled server that is up, and rises only for one that was in rotation and is confirmed down; nothing else of any row changes. |
| HealthRotation.LastOneStays | backend/app/services/health_service.py:207-213 | When everything in service is confirmed down, exactly the last of those in rotation, in list order, stays. |
| HealthRotation.AutoDownOff | backend/app/services/health_service.py:198-202 | With the option off every enabled server's flag is cleared and no change is reported. |
| HealthManual.ManualCheckSplitsExactly | backend/app/services/health_service.py:249-278 | For any host not confirmed down, whatever its other servers do, and any steps of failing cycles, restarts and option changes after a manual check: a server in service that was announced up is announced down on its own exactly when the check did not reach it and a cycle before the confirming one found its flap window open. |
| HealthManual.NextCycleSplitsExactly | backend/app/services/health_service.py:249-278 | It happens in the first failing cycle exactly when, besides, the host's failure counter was 0. |
| HealthManual.OutageAfterManualCheck | backend/app/services/health_service.py:319-351 | Over any such steps the host is announced down at most once and the server at most once: sent in the case above, otherwise grouped as soon as host and server are confirmed down, and not before. |
| HealthManual.StandsThroughout | backend/app/services/health_service.py:168-187 | The invariant: status, counter, announced state and history of such a server, reached or not, against those of its host. |
| HealthManual.ManualCheckSplitsTheOutage | backend/app/services/health_service.py:249-278 | A concrete run in which an outage is announced twice. |
| HealthMonitor.Monitor.ApplyServerResult | backend/app/services/health_service.py:168-187 | Counter map and row after one probe result, with and without debouncing; no other counter moves. |
| HealthMonitor.Monitor.UpdateAutoDown | backend/app/services/health_service.py:190-214 | The two in-place loops leave the rows as the specification that `HealthRotation` characterises (who returns, who leaves, that one stays), and report exactly its changes. |
| HealthMonitor.Monitor.RestoreServers | backend/app/services/health_service.py:203-206 | The first loop takes the flag off exactly the enabled servers that are up (`HealthRotation.RestoreExactly`), and reports whether it took any off. |
| HealthMonitor.Monitor.TakeServersOut | backend/app/services/health_service.py:207-213 | The second loop takes out exactly the failing servers that leave another one in rotation, although it decides on flags it is changing. |
| HealthMonitor.OthersAreRelief | backend/app/services/health_service.py:209-211 | The test on the half-updated list agrees with the one on the list before the loop. |
| HealthMonitor.Monitor.CheckServers | backend/app/services/health_service.py:217-246 | Every result is applied, previous statuses are remembered, and the host is up exactly when a server outside maintenance answered. |
| HealthMonitor.Monitor.SettleHost | backend/app/services/health_service.py:491-522 | Counter, status, timestamp and transition of the host after a cycle. |
| HealthMonitor.Monitor.CheckOne | backend/app/services/health_service.py:481-532 | Working on the enabled sublist of the rows gives what the specification gives on the whole list; other hosts' and servers' counters stay. |
| HealthMonitor.Monitor.PlanOne | backend/app/services/health_service.py:322-367 | One server's alert branch, in place, and the event it returns; `HealthTold` says for each case which event that is. |
| HealthMonitor.Monitor.PlanServerAlerts | backend/app/services/health_service.py:301-368 | The planning loop plans every row, as `HealthTold` describes it, and returns one item per new history event, in row order. |
| HealthLoop.RunHealthChecks | backend/app/services/health_service.py:535-592 | A whole pass over any number of hosts, all checked first and planned second with shared counter and status maps, takes every host through exactly its own cycle, returns the events host by host, reports a config change exactly when some host's rotation changed, and forgets the statuses before the probe. |
| HealthLoop.ConfigChangeExactly | backend/app/services/health_service.py:535-552 | A pass reports a config change exactly when some host has the option on and a server of it whose automatic flag differs after its cycle. |
| HealthLoop.ItemExactly | backend/app/services/health_service.py:301-368 | The item returned for a server is the event its cycle put on record, under its own id, and there is none when there was none. |
| HealthLoop.PassItemsExactly | backend/app/services/health_service.py:563-592 | The items of a pass are exactly the events of the rows of its hosts. |
| HealthLoop.PassItemsInOrder | backend/app/services/health_service.py:563-592 | They come host by host, and of each host row by row. |
| HealthLoop.CheckAll | backend/app/services/health_service.py:546-552 | Checking one host leaves the state and the remembered statuses of every other host alone. |
| HealthLoop.PlanAll | backend/app/services/health_service.py:563-592 | Planning the hosts in turn from the outcomes of all checks is planning each right after its own check. |
| HealthMonitor.Monitor.CheckUpstreamServersNow | backend/app/services/health_service.py:249-278 | The manual check is the undebounced step of the specification. |
| SingleFlight.SingleFlightPerKey | backend/app/core/cache.py:94-137 | Over every interleaving in which nothing goes wrong for a key but failed first looks (waiters may still be cancelled), its producer starts at most once and all calls that return give the same non-null value. |
| SingleFlight.InflightNeverLeaks | backend/app/core/cache.py:107-117 | In every reachable state, with failures and cancellation, each map entry is a lock held by a call that has not reached its finally; the map is no larger than the number of live calls and empty at quiescence. |
| SingleFlight.EntryStaysExactly | backend/app/core/cache.py:102-117 | In any step an entry of the map stays exactly as long as its lock is held, so no call removes the entry of another lock, and a new entry is a new lock. |
| SingleFlight.NoWaiterIsForgotten | backend/app/core/cache.py:107-117 | A queued call waits on a lock held by a live call, or the lock is free and its first waiter can take it, also for locks that have left the map. |
| SingleFlightFaults.SingleFlightExactly | backend/app/core/cache.py:94-137 | For every set of permitted faults: in all runs in which nothing else goes wrong for a key no two of its calls produce at a time, and its producer starts at most once, exactly when the set holds at most failed first looks. |
| SingleFlightFaults.FaultBreaksSingleFlight | backend/app/core/cache.py:107-117 | For each other fault, a run with that fault alone in which two calls of one key produce at a time. |
| SingleFlightFaults.FewFaultsKeepOneBusy | backend/app/core/cache.py:104-114 | Failed first looks alone never break it. |
| SingleFlightFaults.DroppedEntryAllowsTwoProducers | backend/app/core/cache.py:104-117 | A single drop allows three starts of a producer, two of them at a time. |
| SingleFlight.RunKeepsConsistent | backend/app/core/cache.py:94-117 | Locks, map and calls agree after every step. |
| SingleFlight.WriteSettles | backend/app/core/cache.py:109-114 | The write of the one producer is seen by every call of the key from then on. |
| SingleFlight.ReturnedValuesWereProduced | backend/app/core/cache.py:94-117 | In every run, whatever fails, each value a call returns is one that a producer of its own key returned. |
| SingleFlight.HitIsReturned | backend/app/core/cache.py:99-101 | A call whose first look finds a value returns that value and leaves everything else alone. |
| Rollups.EveryRollupIsTrue | backend/app/services/analytics_service.py:18-32 | In every run of logging, pruning (finished or failed on the way) and aggregating, each group a rollup writes gets the number of rows ever logged for it (`Rollups.StoredTotalExactly` says which rows these are), as long as rollups whose window reaches back behind a failed prune's cutoff wait for a prune that finishes. |
| Rollups.StoredTotalExactly | backend/app/services/analytics_service.py:49-126 | The total such a rollup stores for a host, a period and (geographic summary) a country is the number of rows ever logged with that host, an instant in that period, and that country. |
| Rollups.EveryRowIsSummarised | backend/app/services/analytics_service.py:49-126 | Every row left in the window whose period does not begin before the oldest row has such a summary under its own host and period; in the geographic one exactly when its country is known and not empty. |
| Rollups.OnlyRowsAreSummarised | backend/app/services/analytics_service.py:81-126 | A summary that a rollup adds or changes is that of some row it read. |
| Rollups.WindowStartExactly | backend/app/services/analytics_service.py:44-47 | A window begins at the start of the hour or day that lies the given number of them before the clock. |
| Rollups.RunKeepsSound | backend/app/services/analytics_service.py:18-32 | All rows below the latest finished cutoff are gone, others only below the latest cutoff of any prune, and every stored total is at most the true one. |
| Rollups.WrittenTotalIsTrueIff | backend/app/services/analytics_service.py:61-73 | Whatever was removed, a written total never exceeds the number of rows ever logged for the group, and equals it exactly when none of them has been removed. |
| Rollups.TotalsNeverDecrease | backend/app/services/analytics_service.py:81-126 | Stored totals are never lost and never go down. |
| Rollups.TrueTotalsAreFinal | backend/app/services/analytics_service.py:18-32 | A true total stays as it is through any pruning and aggregating while no row of its group is logged. |
| Rollups.CoveredExactly | backend/app/services/analytics_service.py:18-32 | Of the groups in the window with rows left, a rollup writes exactly those whose period does not begin before the oldest row. |
| Rollups.FirstPartialPeriodIsNeverSummarised | backend/app/services/analytics_service.py:25-32 | In every run a period has a summary only if some row was logged at or before its first instant. |
| Rollups.RemovedRowsAreCounted | backend/app/main.py:750-763 | Over any run of logging and passes, with no late rows and passes no further apart than the window (3 hours for hourly, 2 days for other summaries), every row a prune removes, finished or not, belongs to a group that has its true total at that moment, or whose period follows a silence as long as the retention. |
| Rollups.TurnsKeepUpToDate | backend/app/main.py:750-763 | Over such runs every period that is over has its true totals, unless it follows such a silence. |
| Rollups.PassCountsBeforePruning | backend/app/main.py:750-763 | After one pass every group in its window that had rows left has its true total, unless its period begins before the oldest row. |
| Rollups.BackfillReachesExactly | backend/app/main.py:722-733 | The start-up window reaches the newest summarised day exactly when that day is at most two days back, or at most 90 with at most one midnight between the two clock readings. |
| Rollups.BackfillCatchesUp | backend/app/main.py:735-748 | After a gap of at most 90 days the start-up backfill leaves every covered day from the newest summarised one on with its true total, per host and per country. |
| Rollups.InterruptedPruneIsHarmlessExactly | backend/app/services/retention_service.py:42-62 | Whatever was logged and pruned before, a prune that fails after any number of full batches leaves the totals of a rollup right exactly when the rollup's window begins no earlier than the prune's cutoff. |
| Rollups.PassesHarmlessExactly | backend/app/services/retention_service.py:75-78 | At all clock readings of prune and later pass that holds exactly with a retention of three days or more. |
| Rollups.BackfillHarmlessExactly | backend/app/main.py:740-746 | For the backfill at start-up: exactly with a retention of four days or more that is longer than the number of days it goes back. |
| Rollups.NeverInsideExactly | backend/app/services/analytics_service.py:44-46 | A cutoff never lies inside a later window exactly when the retention is at least the window and one period more. |
| Rollups.InterruptedPruneLosesCounts | backend/app/services/retention_service.py:42-62 | For every rollup whose window begins before the cutoff: a state in which a total of n + 1 that was right becomes 1, for every number n of rows removed. |
| Rollups.TwoDaysCanLoseCounts | backend/app/services/retention_service.py:75-78 | With a retention of two days this can happen in a pass two microseconds after midnight. |
| Rollups.Tables.Aggregate | backend/app/services/analytics_service.py:133-244 | The upsert loop writes one total per returned group, that is per host, period and country (`Rollups.EveryRowIsSummarised`), and touches no other summary. |
| Rollups.Tables.BatchDelete | backend/app/services/retention_service.py:42-62 | The batch loop, whatever rows each batch picks, removes exactly the rows older than the cutoff and counts them. |
| FailureLimiter.LimiterRefinesLog | backend/app/services/api_key_service.py:233-254 | After any run of checks, failures and resets a client is refused exactly when the plain log holds at least the maximum of its failures no older than the window; trimming, dropping and evicting never change an answer. |
| FailureLimiter.RequestFromLog | backend/app/services/api_key_service.py:286-316 | After any run, a request logs a failure exactly when fewer than the maximum of recent ones were logged and its key is unknown, wrong or inactive; an inactive owner or one who is no admin costs nothing, and no other client is touched. |
| FailureLimiter.FailuresPerWindow | backend/app/services/api_key_service.py:286-310 | With at most n requests of a client under way at once, no closed interval of the window's length holds more than max + n - 1 failures recorded since the latest reset, and no bucket is longer; one at a time, that is the maximum. |
| FailureLimiter.InterleavedRequestsOvershoot | backend/app/services/api_key_service.py:286-302 | For every maximum and every number n of requests under way at once, some run records max + n - 1 failures of a client at one instant. |
| FailureLimiter.MaximumIsKeptExactly | backend/app/services/api_key_service.py:286-310 | No run puts more than max failures of a client, recorded since the latest reset, into a window exactly when its requests are handled one at a time, or max is 0. |
| FailureLimiter.MapStaysBounded | backend/app/services/api_key_service.py:245-251 | In every run, right after a failure the map holds at most 10,000 clients or only clients with a failure in the window. |
| FailureLimiter.TrimmedCountsRecent | backend/app/services/api_key_service.py:233-237 | The trimmed bucket of a sorted log is as long as the number of failures in the window. |
| FailureLimiter.EvictionKeepsTails | backend/app/services/api_key_service.py:248-251 | Evicting stale clients loses no failure that still counts. |
| FailureLimiter.RunKeepsTails | backend/app/services/api_key_service.py:233-254 | Every bucket is, in every run, the unexpired tail of its client's log. |
| FailureLimiter.FailedAttemptLimiter.Trim | backend/app/services/api_key_service.py:233-237 | The popping loop leaves the specified tail. |
| FailureLimiter.FailedAttemptLimiter.Blocked | backend/app/services/api_key_service.py:239-243 | Answer and map after a check. |
| FailureLimiter.FailedAttemptLimiter.RecordFailure | backend/app/services/api_key_service.py:245-251 | Map after a failure, eviction included. |
| FailureLimiter.FailedAttemptLimiter.Authenticate | backend/app/services/api_key_service.py:286-316 | 429 exactly for a blocked client, 403 exactly for an owner who is no admin, 200 exactly when accepted, 401 otherwise; a failure is recorded exactly for an unknown, wrong or inactive key; the map afterwards. |
| Enrichment.ChecksKeepApart | backend/app/services/enrichment_service.py:213-247 | In every run: an unforced check of an address comes at least 6 hours after any earlier one, also across deletion; after an answer the next check of any kind comes more than 7 days later; after an exhausted quota nothing is sent for 6 hours within the process. |
| Enrichment.AnswersAreFree | backend/app/services/enrichment_service.py:242-247 | Over any run in which an answered address keeps its record, no check of it is sent, forced or not, and the answer stays recorded. |
| Enrichment.AnsweredIsNotAskedAgain | backend/app/services/enrichment_service.py:307-336 | A refresh without an answer never wipes a stored score or the time of its answer; only a blacklist entry replaces it. |
| Enrichment.StoreServesExactly | backend/app/services/enrichment_service.py:213-233 | When a request is served from the store, exactly; otherwise the record has the country just looked up, the new time, and no other record changes. |
| Enrichment.ChecksAreSentExactly | backend/app/services/enrichment_service.py:242-282 | When a check is sent, exactly, and that only an exhausted quota pauses checks. |
| Enrichment.ScoreIsStoredExactly | backend/app/services/enrichment_service.py:258-336 | Past the store the record gets the blacklist's score if a key is configured and the address is listed, else the score of the answer if a check was sent and answered, else keeps what it had. |
| Enrichment.StoredScoreIsLatest | backend/app/services/enrichment_service.py:288-336 | In every run a stored score, with its time, is that of the latest answer or blacklist entry of the address since its record was last deleted, and there is none without one. |
| Enrichment.CleanupExactly | backend/app/services/enrichment_service.py:412-423 | A record survives a cleanup exactly when it was refreshed in the last seven days, and then unchanged. |
| Enrichment.UnforcedBound | backend/app/services/enrichment_service.py:32-32 | At most floor(T/6h)+1 unforced checks of one address are sent in any span T. |
| Enrichment.QuotaBound | backend/app/services/enrichment_service.py:71-80 | One process meets the exhausted quota at most floor(T/6h)+1 times in any span T. |
| Enrichment.RunKeepsDiscipline | backend/app/services/enrichment_service.py:199-342 | The invariant on store, cooldown and the checks sent. |
| Enrichment.Enricher.LookupAbuse | backend/app/services/enrichment_service.py:83-118 | Nothing is sent during the cooldown; a 429 starts it. |
| Enrichment.Enricher.EnrichIp | backend/app/services/enrichment_service.py:199-342 | A request leaves store, cooldown and checks as specified; past the store the record has the country just looked up and the score of the blacklist or of the answered check. |
| Enrichment.Enricher.CleanupStaleEnrichments | backend/app/services/enrichment_service.py:412-423 | Exactly the records not updated for seven days go. |
| ClientIp.UnforgeableExactly | backend/app/core/client_ip.py:95-129 | No text put in front of the forwarded header changes the client exactly when the peer is not a trusted address or the walk stops inside the header. |
| ClientIp.PrependingChangesNothing | backend/app/core/client_ip.py:113-124 | When the walk stops at an untrusted or unparseable hop, any text and comma in front leaves the client unchanged, whatever X-Real-IP says. |
| ClientIp.ForgedLineChangesNothing | backend/app/core/client_ip.py:149-151 | The same for a whole header line, of any name, put in front of the others. |
| ClientIp.ForgedHopWins | backend/app/core/client_ip.py:113-124 | In front of trusted hops only, an untrusted address becomes the client. |
| ClientIp.ResolvingTwiceIsResolvingOnce | backend/app/core/client_ip.py:95-129 | Resolving again with the result as the peer gives the same result. |
| ClientIp.ClientIp | backend/app/core/client_ip.py:95-129 | The reversed loop finds the rightmost untrusted hop with only trusted addresses to its right, else the leftmost hop of that trusted suffix, else the peer. |
| ClientIp.ClientExactly | backend/app/core/client_ip.py:95-129 | The client in every case: a peer that does not parse as it is; an untrusted peer; behind a trusted one the rightmost hop that is not trusted, the hop right of it (or the peer) when that one does not parse, the leftmost when all are trusted; without hops X-Real-IP, or the peer. |
| ClientIp.WrittenHopParses | backend/app/core/client_ip.py:31-46 | A printed address is read back when it comes with a port (IPv6 in brackets), in quotes, and in blanks. |
| ClientIp.MappedHopParses | backend/app/core/client_ip.py:44-45 | An IPv6 address that maps an IPv4 one is read as that one. |
| ClientIp.HopsExactly | backend/app/core/client_ip.py:113-113 | The hops are the parts of the header between its commas that are not blank. |
| ClientIp.SplitJoins | backend/app/core/client_ip.py:113-113 | Those parts hold no comma and join to the header again. |
| ClientIp.StopIs | backend/app/core/client_ip.py:116-123 | The walk stops at the only place that has trusted addresses alone to its right and is none itself. |
| ClientIp.ShownParses | backend/app/core/client_ip.py:31-46 | Stripping, unquoting, unbracketing and port removal leave a printed address alone. |
| ClientIp.HopsPrepended | backend/app/core/client_ip.py:113-113 | The hops of a longer header are those of the text in front followed by those of the header. |
| CronSlots.SlotsFireInOrder | backend/app/main.py:256-287 | With one schedule and a clock that never runs backwards, fired slots strictly increase, are slots of the schedule, and fire 0 to under 600 seconds after they arrive. |
| CronSlots.FiresExactlyWhenSeen | backend/app/main.py:258-287 | In any run, settings and clock changes included, a slot fires exactly when some enabled tick reads it while it is under 600 seconds old. |
| CronSlots.EverySlotFiresOnce | backend/app/main.py:899-926 | With ticks at most g < 600 s apart, slots further apart than g and the job enabled, every slot passed fires exactly once. |
| CronSlots.SlowLoopMissesSlot | backend/app/main.py:285-286 | A tick 600 seconds after a slot misses it. |
| CronSlots.FiresTwiceExactly | backend/app/main.py:258-287 | In any run, settings and clock changes included, a slot fires more than once exactly when enabled ticks see it, then another slot, then it again, each in time. |
| CronSlots.ChangingTheScheduleRepeatsSlot | backend/app/main.py:286-287 | A concrete run that fires one slot twice. |
| CronSlots.Scheduler.Loop | backend/app/main.py:245-287 | The loop fires what the specification fires and remembers the last slot. |
| AdminMfa.OneUsePerStep | backend/app/services/admin_mfa_service.py:139-165 | In every run with the claim store reachable, a code is not accepted twice for one user and purpose in the window of the same 30-second step (section 5.2 of RFC 6238), claims up to 30 s late; that it is the code of such a step is in the next two rows. |
| AdminMfa.NoStepIsUsedTwice | backend/app/services/admin_mfa_service.py:139-165 | In every run, two accepted uses of one code by one user for one purpose, with the store reachable, were each the code of a step in the window of its request, and of different steps. |
| AdminMfa.UsesAreGenuine | backend/app/services/admin_mfa_service.py:153-160 | Every accepted authenticator code is that of a step at most one away from the current one, for the secret that the account had. |
| AdminMfa.VerdictExactly | backend/app/services/admin_mfa_service.py:139-165 | A code is accepted as the authenticator's exactly when the account is enrolled, the secret opens, some step of the window has that code, and no live claim stands; as a backup code exactly when it is not such a code, has eight characters and is in the set that opens; else it is refused. |
| AdminMfa.RequestLeavesExactly | backend/app/services/admin_mfa_service.py:139-185 | An accepted backup code loses one occurrence, an accepted authenticator code is claimed for 120 seconds if the store can be reached, and nothing else changes. |
| AdminMfa.ConfirmExactly | backend/app/services/admin_mfa_service.py:116-136 | Confirming makes an account enrolled exactly when the code is that of a step of the window for the stored secret; another code changes nothing. |
| AdminMfa.NormalisedExactly | backend/app/services/admin_mfa_service.py:148-150 | What is compared holds no spaces, and is what was typed when that held none. |
| AdminMfa.RefusedExactlyOnReplay | backend/app/services/totp_replay.py:19-31 | A code the user's authenticator shows is refused exactly when the store is reachable and the code was accepted for the same user and purpose less than 120 seconds ago. |
| AdminMfa.BackupCodesAreConserved | backend/app/services/admin_mfa_service.py:168-202 | Between re-issues the codes left and the codes used add up to the codes issued, as multisets, across key changes. |
| AdminMfa.BackupUsesAreBounded | backend/app/services/admin_mfa_service.py:168-185 | A backup code is used at most as often as the set holds it, and is accepted exactly while fewer uses are on record and the set can be decrypted. |
| AdminMfa.RunKeepsUsesApart | backend/app/services/totp_replay.py:15-28 | The store's claims are exactly those of recorded uses, and uses of one code are 120 seconds apart. |
| Sequences.WithoutFirstContents | backend/app/services/admin_mfa_service.py:182-182 | Using a code removes one occurrence and nothing else. |
| AdminMfa.ReplayStore.ClaimTotpCode | backend/app/services/totp_replay.py:19-31 | Set if absent with expiry; an unreachable store lets the code pass. |
| AdminMfa.User.VerifyCode | backend/app/services/admin_mfa_service.py:139-165 | A code is accepted exactly when the account is enrolled and it is the code of a step of the window without a live claim, or else a code of the set; account and claims after the request in all branches. |
| AdminMfa.User.ConsumeBackupCode | backend/app/services/admin_mfa_service.py:168-185 | Which codes are accepted and what is left of the set. |
| AdminMfa.User.ConfirmEnrolment | backend/app/services/admin_mfa_service.py:116-136 | Switched on exactly by a code that the stored secret has for a step at most one away from the current one. |
| LoadBalancing.GroupPassesExactly | backend/app/services/load_balancing.py:105-154 | The error list is empty exactly when the method is known and the group is empty or has an enabled primary, no enabled backups its method forbids, and no server twice. |
| LoadBalancing.ErrorsExactly | backend/app/services/load_balancing.py:105-141 | Each error is reported exactly when it applies: no enabled primary, an enabled backup with IP hash, URI hash or random, an address that two servers print; and no other. |
| LoadBalancing.ChosenExactly | backend/app/services/load_balancing.py:24-30 | The method is the named one, round robin when none is named, and unknown for every other name. |
| LoadBalancing.WarningsExactly | backend/app/services/load_balancing.py:143-152 | Each warning is given exactly when the enabled primaries are all down (with or without an enabled backup), or exactly one server is enabled. |
| LoadBalancing.RepeatsCountExactly | backend/app/services/load_balancing.py:136-141 | The number of "listed more than once" errors is the number of servers minus the number of distinct (host, port) pairs. |
| LoadBalancing.SameAddressExactly | backend/app/services/load_balancing.py:81-85 | Two servers print alike exactly when their ports agree and their hosts do up to brackets. |
| LoadBalancing.PrintingIsInjective | backend/app/services/load_balancing.py:81-85 | For hosts that do not start with a bracket printing loses nothing. |
| LoadBalancing.NormalizedIsUnwrapped | backend/app/services/load_balancing.py:61-78 | A normalised host never starts with a bracket. |
| LoadBalancing.NormalizingTwiceIsNormalizingOnce | backend/app/services/load_balancing.py:61-78 | A normalised host is in lower case, and normalising it again changes nothing, for an address library that ignores case and prints addresses so that they print alike again. |
| LoadBalancing.BracketedHostLooksRepeated | backend/app/services/load_balancing.py:81-85 | Without normalisation a distinct pair can be reported as a repeat. |
| LoadBalancing.CheckLbRules | backend/app/services/load_balancing.py:105-154 | The errors and warnings of the loop with its set of seen addresses, in order. |

## Left out

- HealthLoop.RunHealthChecks: hosts are checked in list order; the program checks them in the order their probes come back. Each check runs without an await once its probes are in. A check or a planning pass that raises is left out.
- HealthMonitor.Monitor.CheckServers: the error text and upstream label it returns, and error texts, latencies and check times of a row are not modelled.
- Database rollback: a failed commit leaves the in-process counters ahead of the stored rows; every step is taken to be committed.
- HealthMonitor.Monitor.CheckUpstreamServersNow: the report it returns is left out, and it is an atomic step; a manual check that runs in the middle of a cycle is not modelled.
- Pruning of the event history, alert texts and dispatch to push, mail and chat.
- SingleFlight.SingleFlightPerKey: a state machine rather than a class, because the property is about every interleaving of awaits; locks are asyncio locks, which are fair.
- SingleFlight.WriteSettles: normalising the producer's result to JSON is not modelled; values are compared as stored.
- Rollups.EveryRollupIsTrue: request counts only; byte sums, averages, percentiles, unique and top addresses and threat counts are left out. Rows never arrive below the cutoff of a finished prune.
- Rollups.BackfillCatchesUp: reading the newest summarised date back from the table is a parameter.
- FailureLimiter.FailuresPerWindow: a reset forgets the log too, so intervals that span a reset are not bounded.
- FailureLimiter.FailedAttemptLimiter.Authenticate: parsing and hashing of the key, scopes and the last-used bookkeeping.
- Enrichment.ChecksKeepApart: requests run one after another; two concurrent requests for one new address could both send a check.
- Enrichment.Enricher.EnrichIp: of the free fields only the country, of the reputation only the score is modelled.
- ClientIp.ClientIp: the periodic re-resolution of proxy names; the trusted set is fixed during a request. The middleware's scheme header is left out.
- ClientIp.ResolvingTwiceIsResolvingOnce: assumes that printed addresses parse back to themselves, which the address library promises for addresses without a scope.
- CronSlots.EverySlotFiresOnce: the cron library is any function that returns the latest slot, where a slot at the very instant of the clock may count or not. What a fired job does, and how long it takes, only shows in the ticks.
- AdminMfa.OneUsePerStep: codes are plain text; the library's Unicode normalisation of typed digits is not modelled.
- AdminMfa.User.VerifyCode: one request at a time per user; encryption is an opaque seal that opens only under its own key.
- LoadBalancing.NormalizedIsUnwrapped: the address library is a parameter that never prints a bracket first.
- LoadBalancing.NormalizingTwiceIsNormalizingOnce: assumes an address library that ignores case and prints addresses in lower case, without blanks at the ends, so that they print alike again.
- ClientIp.WrittenHopParses: for printed addresses without brackets or quotes in them, which leaves out scopes that hold such characters.
- Firewall connectors, certificates, backups, telemetry, the updater, container management, the MCP tools and the front end.
