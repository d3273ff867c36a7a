# Bantay, modelled in Dafny

Bantay is a monitoring hub with agents. This project models the parts of it whose correctness is a matter of whole runs
rather than of single calls, and proves what they keep:

- the hub's WebSocket request multiplexer (`RequestMux`),
- status alerts with pending timers, their history and the status transitions that drive them (`StatusAlerts`,
  `StatusTimers`, `StatusTraces`, `StatusHonesty`, `StatusHub`),
- threshold alerts over a window of stored rows (`AlertReadings`, `ThresholdAlerts`, `ThresholdLaws`, `ThresholdHandler`)
  and the alert cache (`AlertsCache`),
- averaging, tiered roll-up and retention of statistics (`Averages`, `AverageLaws`, `RollUp`, `RollUpLaws`, `StoredPeaks`),
- GPU totals with per-interval snapshots (`GpuSnapshots`, `GpuLaws`, `GpuReentry`, `GpuManager`), rates from 64-bit
  counters (`Counters`, `NetworkTotals`, `DiskIo`) and the delta tracker (`DeltaTracker`),
- the merge of SMART device lists (`SmartMerge`, `SmartLaws`, `SmartDevices`),
- the Docker log decoder (`DockerLogs`), the "Stream format" of the attach operation of the Docker Engine API,
- the replacement of the agent's binary (`InstallBinary`) and disk discovery (`DiskChoice`, `DiskLaws`).

Concurrent code is a state machine: each lock-protected block, channel operation, timer event, database event or system
call is one step, and the theorems are about every interleaving of them. Code that updates objects in loops is a class
whose methods are proved equal to functions on values, and the theorems are about those functions. The modules called
laws or traces say what these functions come to in terms that do not mention them: exactly which steps queue, raise or
remove something, and what each figure is of the values it was computed from. `Basics`, `Arith`, `Rounding` and `Series`
are shared. `dafny verify dfyconfig.toml` checks everything.

Where a promise does not hold of the code as it stands, the model follows the code, shows an input for which it fails and
proves the exact condition under which it holds:

- a connection can serve 2^32 requests and not one more before a waiter can be orphaned (`SafeExactlyWithinIdSpace`);
- a reply can be left in a channel nobody reads, for good, and is so exactly after three kinds of step (`LeakHappens`,
  `LeakIsForever`, `AbandonedIff`, `RepliesLostIff`);
- a "down" notification can be dishonest exactly after a write of "pending", or of "up" for a system the manager does not
  hold, with an alert of the system pending and able to send, or after the cancellation of a live alert whose timer has
  expired (`MisleadsIff`, `PendingWriteMisleads`, `OvertakenMisleads`);
- an alert can stay triggered although its system is up (`UpQuietIff`, `TriggeredThoughUp`);
- the byte that counts rows in an alert's window wraps at 256, which a window of 22 minutes reaches at one row every five
  seconds (`AgreementIff`, `WrapMisleads`, `HandlerMisled`);
- what a stored row omits is taken from an earlier one, so an alert can fire on values its window does not hold (`StaleIff`,
  `SilenceMisleads`), and a temperature alert can resolve while some sensor is always hot (`ResolvedWhileHot`);
- an update that moves an alert to another system, or that comes before the cache knows the system, leaves the cache wrong
  (`StepExact`, `MoveSpoils`, `EarlyWriteSpoils`);
- a failed install can put an earlier backup in the place of the installed binary (`MishapLosesOld`, `ErrorsKeepOldIff`);
- what has been verified about a drive is lost when a refresh lists it twice and the next lists it under another type
  (`MergeKeepsKnownIff`, `VerifiedLost`);
- disk discovery can end without a root entry (`RootIff`, `RootlessHappens`), an I/O device search has one answer only if the
  exact matches have one name (`SearchDeterminedIff`), and the most active device is well defined only if no device without
  a name beats all others (`MostActiveDeterminedIff`);
- a GPU that is entered anew after a read can be reported wrongly (`EnterTrueIff`, `EnteredHidesSample`);
- a failed read of a disk's usage makes the next interval's first rate wrong (`ReportsTrueIff`, `FailureMisleads`);
- 64-bit sums and products are exact only while they fit a word (`CounterExactIff`, `RiseExactIff`).

## Model

| member | source | states |
|---|---|---|
| RequestMux.StepKeeps | internal/hub/ws/request_manager.go:45-199 | every step of senders, watchers, waiters, the read loop and Close keeps the invariant of the multiplexer while ids have not wrapped; what each step does to the pending map and to the contexts is exact in the rows below |
| RequestMux.StepPending | internal/hub/ws/request_manager.go:45-199 | after any step a request is pending if and only if the step registered it, or it was pending and the step is not its delivery, the run of its watcher, its failed write or Close |
| RequestMux.PendingIff | internal/hub/ws/request_manager.go:103-199 | in every run the pending requests are exactly those that were registered and that no such step has removed since |
| RequestMux.RemovedForGood | internal/hub/ws/request_manager.go:172-187 | what such a step has removed is pending in no later state |
| RequestMux.WatchedForGood | internal/hub/ws/request_manager.go:166-180 | so an expired request is gone from the map once its watcher has run |
| RequestMux.ClosedForGood | internal/hub/ws/request_manager.go:190-199 | and what is pending after Close was registered after it |
| RequestMux.StepDone | internal/hub/ws/request_manager.go:45-199 | after any step a context has ended if and only if it had before, it timed out, its waiter closed it, or its write failed or Close ran while it was pending |
| RequestMux.DoneIff | internal/hub/ws/request_manager.go:45-199 | in every run a context has ended if and only if one of those steps was taken |
| RequestMux.LegacyReplyGoesToOldest | internal/hub/ws/request_manager.go:139-163 | a reply without an id is routed to a registered and not yet removed request with the earliest creation time of all those |
| RequestMux.LegacyReplyReachesWaiter | internal/hub/ws/request_manager.go:139-163 | if one waiting request alone is left, a reply without an id cannot be dropped and reaches it |
| RequestMux.NoWaiterOrphaned | internal/hub/ws/request_manager.go:103-187 | in every interleaving of at most 2^32 requests each request is still pending, has its reply or has a finished context, and when the reader sends, its target's one-slot channel has never been used, so it never blocks |
| RequestMux.ReplyReachesWaiter | internal/hub/ws/request_manager.go:116-135 | a waiting request that is neither answered nor expired gets the next reply carrying its id, which cannot be dropped, and can receive it |
| RequestMux.MessageHasOneHome | internal/hub/ws/ws.go:135-162 | every message that arrived is in exactly one place: with the reader, unread in one channel, in a waiter's hand, or closed, and closed once |
| RequestMux.RepliesMatchRequests | internal/hub/ws/request_manager.go:116-131 | a reply carrying an id is only ever put in the channel of a request issued with that id, in one channel only, and a channel never holds a second message |
| RequestMux.LegacyRepliesInOrder | internal/hub/ws/request_manager.go:139-163 | in runs without ids and cancellations, with increasing creation times and in-order answers, the k-th reply reaches the k-th request |
| RequestMux.LeakIsForever | internal/hub/ws/request_manager.go:128-135 | a reply in the channel of a request whose waiter has left stays there unclosed in every continuation |
| RequestMux.LeakHappens | internal/hub/ws/request_manager.go:128-135 | such a state is reachable, because the select may send although the context is done |
| RequestMux.AbandonedIff | internal/hub/ws/request_manager.go:77-135 | a step abandons a reply if and only if it sends to a request whose waiter has left, makes a waiter leave with its reply unread, or fails a write whose reply has already come |
| RequestMux.RepliesLostIff | internal/hub/ws/ws.go:135-162 | in every run each message that arrived is closed, with the reader, in a waiter's hand or in the channel of a live request, if and only if no step so far was one of those three |
| RequestMux.WrapOrphans | internal/hub/ws/request_manager.go:46-68 | one request more than 2^32 reuses a live id and a reachable state has an orphaned waiter |
| RequestMux.SafeExactlyWithinIdSpace | internal/hub/ws/request_manager.go:46-68 | no reachable state with n requests has an orphan if and only if n is at most 2^32 |
| RequestMux.IssuedPending | internal/hub/ws/request_manager.go:45-86 | a sent request waits under an id of its own, and a failed send leaves the pending map as it was and the request finished |
| RequestMux.HandledOnce | internal/hub/ws/request_manager.go:103-163 | handling one reply puts it in the channel of exactly one pending request, its addressee, or closes it, and says when each happens |
| RequestMux.RequestManager.SendRequest | internal/hub/ws/request_manager.go:45-86 | the method leaves the manager in the state that issuing a request defines |
| RequestMux.RequestManager.FindOldest | internal/hub/ws/request_manager.go:142-147 | the loop finds a pending request with the earliest creation time, or none when nothing is pending |
| RequestMux.RequestManager.HandleResponse | internal/hub/ws/request_manager.go:103-163 | the method does to the manager what handling a reply defines, with or without an id |
| RequestMux.RequestManager.CancelRequest | internal/hub/ws/request_manager.go:172-180 | a pending request is finished and removed; an unknown id changes nothing |
| RequestMux.RequestManager.DeleteRequest | internal/hub/ws/request_manager.go:183-187 | the entry is removed and no context is touched |
| RequestMux.RequestManager.Close | internal/hub/ws/request_manager.go:190-199 | every pending request is finished and the map is empty |
| StatusAlerts.StepGood | internal/alerts/alerts_status.go:83-202 | every step keeps notifications paired and at most one history row open per alert, exactly one per triggered alert unless history is pruned |
| StatusAlerts.NotificationsPair | internal/alerts/alerts_status.go:83-139 | in every run an "up" or a silent reset directly answers a "down" of the same alert, and two "down"s have one of them between them |
| StatusAlerts.HistoryMatchesAlerts | internal/alerts/alerts_history.go:11-55 | in runs without history pruning an alert has exactly one unresolved history row while triggered and none otherwise |
| StatusAlerts.DropRowGood | internal/records/records_deletion.go:41-57 | pruning any history row keeps at most one open row and the pairing |
| StatusTraces.StepQueues | internal/alerts/alerts_status.go:53-139 | after any step an alert is pending if and only if the step queued it (its system went from up to down in the manager's sight, or a restart found it untriggered with its system down) or it was pending and the step did not take it out; with which entry and which timer |
| StatusTraces.StepFlags | internal/alerts/alerts_status.go:83-202 | after any step an alert is triggered if and only if the step raised it or it was triggered and the step did not lower it; the message and the history row that go with that are the only ones |
| StatusTraces.StepTables | internal/hub/systems/system_manager.go:178-229 | after any step: the status of every system, since when it has been down, and whether and as what the manager holds it |
| StatusTraces.StepSetup | internal/alerts/alerts_cache.go:49-64 | after any step: which alerts exist, and their system, kind and minutes; only an edit changes the minutes |
| StatusTraces.ResolvesFirst | internal/alerts/alerts_history.go:11-55 | resolving history closes the first open row, and changes nothing if none is open |
| StatusTraces.PendingIff | internal/alerts/alerts_status.go:33-139 | in every run the pending alerts are exactly those that a step queued and that none has taken out since |
| StatusTraces.EntryOfQueueing | internal/alerts/alerts_status.go:62-79 | and the entry is that of the queueing step: its time, and the minutes the alert had then, at least one |
| StatusTraces.DownAfterMinutes | internal/alerts/alerts_status.go:125-139 | in undisturbed runs a "down" is sent by a callback only after the alert's minutes have passed since the step that queued it |
| StatusTraces.WillSend | internal/alerts/alerts_status.go:62-79 | every pending alert that can send does so when its timer expires, if the hub is left alone |
| StatusTraces.GoingDownSends | internal/alerts/alerts_status.go:33-79 | so does every untriggered alert of a system that goes down, its minutes later |
| StatusTraces.RestartSends | internal/alerts/alerts_status.go:206-236 | and, after a restart, every untriggered alert of a system that is down |
| StatusTimers.StepBase | internal/alerts/alerts_status.go:33-139 | every step keeps each pending alert tied to a timer set for its expiry or already expired, and the manager's statuses equal to the table's |
| StatusTimers.PendingHasTimer | internal/alerts/alerts_status.go:62-79 | in every run a pending alert's timer is set for scheduling time plus delay, or has expired |
| StatusTimers.ContinuousExact | internal/hub/systems/system_manager.go:178-229 | a step leaves every waiting alert's system down since before the alert was scheduled if and only if it is not a write of "pending", or of "up" for a system the manager does not hold, with an alert of the system pending and able to send, or made so by the write |
| StatusTimers.CurrentExact | internal/alerts/alerts_status.go:99-122 | a step leaves every timer of a live alert belonging to the alert's current entry if and only if it does not cancel a live alert whose timer has expired |
| StatusTimers.DownMeansDown | internal/alerts/alerts_status.go:125-139 | in every run without such steps each "down" was sent after the table had said "down" without a break for the whole delay fixed at scheduling, at least a minute |
| StatusHonesty.MisleadsIff | internal/alerts/alerts_status.go:99-139 | in any state an undisturbed run can be in, a step opens the way to a "down" that is not honest, by a continuation that disturbs nothing further, if and only if it loses a timer or overtakes one |
| StatusHonesty.RunMisleadsIff | internal/hub/systems/system_manager.go:178-229 | over runs: as long as no step disturbs, no undisturbed continuation is dishonest, and the first step after which one is dishonest is the first that disturbs |
| StatusTimers.PendingWriteMisleads | internal/hub/systems/system_manager.go:196-208 | a write of "pending" leaves the timer and "down" is sent for a system that is up |
| StatusTimers.OvertakenMisleads | internal/alerts/alerts_status.go:125-129 | an expired callback that was overtaken sends "down" at the moment the system goes down again |
| StatusTimers.ComesUp | internal/hub/systems/system_manager.go:216-227 | a new system coming up schedules and sends nothing and leaves a hub that holds it as up |
| StatusTimers.WatchedHappens | internal/alerts/alerts_status.go:53-79 | from there, creating an alert and the system going down lead to the state in which the two runs above and `DownIsSent` start |
| StatusTimers.PausedIsQuiet | internal/hub/systems/system_manager.go:188-195 | in every run no status alert of a paused system is pending or triggered |
| StatusTimers.UpClearsAlerts | internal/alerts/alerts_status.go:83-96 | when a down system comes up its pending alerts are cancelled without a message and keep their flag, and its other triggered ones are resolved with one "up" |
| StatusHonesty.UpQuietIff | internal/alerts/alerts_status.go:83-96 | a step leaves a live status alert of an up system triggered if and only if it is a write of "up" that finds a triggered alert and does not handle it, or a "down" sent for a system that is up |
| StatusHonesty.RunUpQuiet | internal/hub/systems/system_manager.go:216-227 | in every run without such steps no live status alert of an up system is triggered |
| StatusHonesty.DownIsSent | internal/alerts/alerts_status.go:125-139 | a minute after the system went down its alert is triggered and "down" is sent |
| StatusHonesty.TriggeredThoughUp | internal/alerts/alerts_status.go:83-92 | from there, a write of "pending" over a WebSocket, then "up", "down" and "up" leave the system up and the alert triggered, with no "up" sent |
| StatusTimers.DownSchedulesAlerts | internal/alerts/alerts_status.go:53-79 | when an up system goes down each of its status alerts is pending with its own delay, and one already pending keeps its entry |
| StatusHub.Hub.Schedule | internal/alerts/alerts_status.go:62-79 | an alert that is not pending gets an entry and a timer for now plus its delay; a pending one is left alone |
| StatusHub.Hub.ScheduleAll | internal/alerts/alerts_status.go:53-58 | the loop schedules exactly the given alerts that were not pending |
| StatusHub.Hub.Cancel | internal/alerts/alerts_status.go:99-110 | the entry is removed, its timer stopped, and the result says whether there was one |
| StatusHub.Hub.HandleSystemUp | internal/alerts/alerts_status.go:83-96 | the loop over the cached alerts does what the "up" transition defines |
| StatusHub.Hub.CancelPending | internal/alerts/alerts_status.go:114-122 | exactly the pending alerts of the system are cancelled |
| StatusHub.Hub.ProcessPending | internal/alerts/alerts_status.go:125-139 | the callback removes its entry and triggers and notifies only an alert that still exists and is not triggered |
| StatusHub.Hub.Deactivate | internal/hub/systems/system_manager.go:359-375 | exactly the triggered alerts of the system are reset, with their history |
| StatusHub.Hub.UpdateStatus | internal/hub/systems/system_manager.go:178-229 | a status write leaves the hub in the state its transition defines, for each status, held or not |
| StatusHub.Hub.ResolveStale | internal/alerts/alerts_status.go:174-202 | exactly the triggered status alerts of systems that are up are resolved |
| StatusHub.Hub.Serve | internal/alerts/alerts.go:114-126 | after a restart stale alerts are resolved and exactly the untriggered status alerts of down systems are pending, with a full delay (`StepQueues` and `RestartSends` say so without this definition) |
| ThresholdAlerts.FlipIsAgreed | internal/alerts/alerts_system.go:163-296 | with at most 255 rows in the window a flip has the true mean on the new side, at least min/1.2 rows, and readings that bear it out: one on the new side, or, to resolve a disk or temperature alert, one for every disk or sensor |
| ThresholdAlerts.AgreementIff | internal/alerts/alerts_system.go:242-296 | for every kind of alert and windows of n rows, every flip is borne out by the readings if and only if n is at most 255 or n modulo 256 is too few rows to flip |
| ThresholdAlerts.WrapMisleads | internal/alerts/alerts_system.go:242-275 | when the byte has wrapped, rows that are all on the old side flip the alert, whatever its kind |
| ThresholdAlerts.ResolvedWhileHot | internal/alerts/alerts_system.go:246-275 | a temperature alert resolves although every row has a sensor above the threshold, because the sensors take turns |
| AlertReadings.StaleIff | internal/alerts/alerts_system.go:163-172 | decoding a row into the record of the rows before it gives what the row says itself, if and only if those rows left nothing that the row omits and that counts |
| ThresholdAlerts.FreshWindow | internal/alerts/alerts_system.go:163-244 | a window in which no row carries anything has the rows' own readings |
| ThresholdAlerts.SilenceMisleads | internal/alerts/alerts_system.go:163-190 | otherwise one busy row from before the window makes a bandwidth alert fire on rows without traffic |
| ThresholdAlerts.SentIsJustified | internal/alerts/alerts_system.go:16-296 | every alert sent, of any kind, is one the current value asked for and, beyond a minute, one whose window is covered by rows and borne out by what they say themselves, unless a row of it carries something; the byte may have wrapped for alerts that do not wait, or where that is harmless |
| ThresholdAlerts.HandlerMisled | internal/alerts/alerts_system.go:166-296 | for every kind of alert and every number of rows at which the byte misleads, there is a table on which the handler sends an alert that the window does not bear out |
| ThresholdLaws.CurrentIff | internal/alerts/alerts_system.go:31-70 | the value an alert compares first is, for each of the ten kinds, the stated field: the fullest disk, no temperature below one degree, no battery at zero |
| ThresholdLaws.SentIff | internal/alerts/alerts_system.go:16-296 | a message is sent if and only if it flips an alert that the current value asks for and that either does not wait or is covered by rows that confirm it |
| ThresholdLaws.CoveredIff | internal/alerts/alerts_system.go:123-160 | a waiting alert is covered by the rows if and only if some row is older than its window and less than 90 seconds older than the window of some alert that waits |
| ThresholdLaws.LevelReads | internal/alerts/alerts_system.go:163-244 | a row whose field for the alert is at a value reads as that value, whatever rows of the kind came before |
| ThresholdLaws.LevelDecides | internal/alerts/alerts_system.go:16-296 | on rows at one level, for each of the ten kinds, an alert is sent if and only if the current value is on the new side and it does not wait, or the level is on the new side too, at least min/1.2 rows are in the window and the window is covered |
| ThresholdLaws.OwnFieldsDecide | internal/alerts/alerts_system.go:31-244 | what is sent depends on no field of the current data or of the rows other than those of the alerts' kinds |
| ThresholdHandler.Sort | internal/alerts/alerts_system.go:26-121 | the first loop sends the immediate alerts, keeps the waiting ones in order and finds the start of the longest window |
| ThresholdHandler.ValueOf | internal/alerts/alerts_system.go:31-70 | the first switch gives the current value of each kind, and none without a sensor or a battery |
| ThresholdHandler.Join | internal/alerts/alerts_system.go:188-244 | the second switch adds the readings of a row to an alert, and counts it unless it has no GPU to read |
| ThresholdHandler.MeanOf | internal/alerts/alerts_system.go:246-270 | the third switch gives the largest named mean, or the mean |
| ThresholdHandler.Tally | internal/alerts/alerts_system.go:162-244 | the nested loops decode all rows into one record and leave each alert with the sum, or the sums by name, of the readings in its window and their number modulo 256 |
| ThresholdHandler.HandleSystemAlerts | internal/alerts/alerts_system.go:16-296 | the handler sends exactly the alerts the definition gives, in order, for all ten kinds |
| AlertsCache.StepExact | internal/alerts/alerts_cache.go:49-108 | an event keeps the cache in agreement with the table if and only if it is not a write that moves an alert from a cached system or starts an uncached system that has other alerts |
| AlertsCache.MoveSpoils | internal/alerts/alerts_cache.go:50-54 | after a population, an update that moves an alert to another system leaves it cached under the old one, which has no alerts in the table |
| AlertsCache.EarlyWriteSpoils | internal/alerts/alerts_cache.go:84-97 | before the population, a write to a system with another alert leaves the cache holding the new one alone |
| AlertsCache.CacheIsTheTable | internal/alerts/alerts_cache.go:67-133 | after a population, over every sequence of events that keep the alerts' systems, a cached system holds exactly the table's alerts and an uncached one has none |
| AlertsCache.CachedIff | internal/alerts/alerts_cache.go:11-133 | so an alert is cached under a system exactly when the table has it there, and every field of it says the same, the minutes as a byte |
| AlertsCache.PopulateRepairs | internal/alerts/alerts_cache.go:67-81 | a population makes a spoilt cache the table again if and only if the table can be read and it is the first or forced; otherwise nothing changes |
| AlertsCache.GetLoads | internal/alerts/alerts_cache.go:111-133 | a read of a system that is not cached caches exactly what the table says of it now, and touches no other |
| AlertsCache.RefreshIsCurrent | internal/alerts/alerts_cache.go:136-177 | a refreshed snapshot is the record as it is now, and is missing exactly when the alert is gone from its system |
| AlertsCache.PopulateAgrees | internal/alerts/alerts_cache.go:67-81 | a population gives agreement and covers every system that has alerts |
| AlertsCache.Store.Update | internal/alerts/alerts_cache.go:84-97 | the record is entered under its system, which is created if missing; a record without system changes nothing |
| AlertsCache.Store.Delete | internal/alerts/alerts_cache.go:100-108 | the record is removed from its system and nothing else changes |
| AlertsCache.Store.PopulateFromDB | internal/alerts/alerts_cache.go:67-81 | the loop of updates leaves every system with its alerts; it is skipped when already populated and changes nothing when the table cannot be read |
| AlertsCache.Store.GetSystemAlerts | internal/alerts/alerts_cache.go:111-133 | it returns each alert of the system once, loading the system first if it is missing |
| AlertsCache.Store.GetAlertsByName | internal/alerts/alerts_cache.go:144-153 | it returns exactly the system's alerts of that name |
| Averages.AverageSystemStats | internal/records/records.go:177-444 | the accumulating and dividing passes compute the mean, the largest or the last value of every series, as the rows below say of each |
| AverageLaws.AveragedSeries | internal/records/records.go:177-444 | the average holds a series if and only if some record does, and the Max field of each series that has one |
| AverageLaws.FloatMean | internal/records/records.go:340-385 | a float is the nearest hundredth of the sum over the number of records |
| AverageLaws.TemperatureMean | internal/records/records.go:380-385 | a temperature is that over the records that have temperatures |
| AverageLaws.TempCountIs | internal/records/records.go:262-285 | which are counted once each |
| AverageLaws.CounterMean | internal/records/records.go:364-365 | a 64-bit average is the sum over the number of records, rounded down, while the sum fits |
| AverageLaws.ByteMean | internal/records/records.go:340-444 | so is the battery's level; core usage is rounded |
| AverageLaws.KeptValues | internal/records/records.go:177-340 | totals of interfaces keep their largest value and the charging state is the last record's |
| AverageLaws.MaxFieldIs | internal/records/records.go:244-257 | one averaging makes a Max field the largest of the values and Max fields averaged, for each field that has one: CPU, used memory, network and disk rates, bandwidth and disk I/O of the host and of extra filesystems |
| AverageLaws.MaxFieldSurvives | internal/records/records.go:177-444 | any number of averagings make it the largest value or Max field at the bottom |
| Averages.MeanWithin | internal/records/records.go:340-444 | every rounded or truncated average lies between the smallest and the largest value averaged, and the conversions to a byte lose nothing |
| Averages.TemperatureWithin | internal/records/records.go:380-385 | a temperature average lies within the readings of the records that have temperatures |
| Averages.CounterExactIff | internal/records/records.go:364-365 | a 64-bit average is the floor of the true mean if and only if the sum fits 64 bits |
| Averages.PeakSurvives | internal/records/records.go:177-444 | the Max field at the root of any averaging tree is the largest value in any leaf beneath it |
| RollUp.JobIgnoresExpired | internal/records/records.go:88-148 | what a roll-up job creates depends only on rows that pruning keeps |
| RollUp.PruningCommutes | internal/records/records_deletion.go:60-99 | deleting expired rows changes neither which longer rows a run creates nor their contents, across all tiers |
| RollUp.PruningKeepsSources | internal/records/records.go:113-132 | nor which shorter rows each job averages |
| RollUp.PruneCommutesWithRun | internal/records/records.go:41-155 | pruning before or after a whole run over all systems leaves the same table |
| RollUp.RunKeepsSpacing | internal/records/records.go:94-112 | in every run with a monotone clock two 20m, 120m or 480m rows of one system and collection are at least the period less a minute apart |
| RollUp.BoundedStorage | internal/records/records_deletion.go:69-95 | right after a pruning pass there are at most 76, 85 and 91 rows of those kinds per system and collection |
| RollUp.RunOnlyInserts | internal/records/records.go:133-148 | a run leaves the rows there were and adds exactly the created ones at the end |
| RollUpLaws.JobInserts | internal/records/records.go:88-148 | a job inserts one row of its longer kind if and only if enough shorter rows (9, 2, 6 or 4) are newer than its minutes and, above 10m, no row of the kind itself is newer than its minutes less one; it averages exactly those shorter rows |
| RollUpLaws.RunCreates | internal/records/records.go:41-155 | after a run over distinct systems, the rows of each system, collection and longer kind are those from before and, if due by them and by the shorter rows the run leaves, that one |
| RollUpLaws.RunLeavesOthers | internal/records/records.go:41-155 | a run leaves 1m rows and the rows of other systems alone |
| RollUpLaws.DeletesExpired | internal/records/records_deletion.go:60-99 | the deletion removes every row older than 1, 12 or 24 hours, 7 or 30 days, by its kind, and no other row |
| StoredPeaks.RowsExplained | internal/records/records.go:88-148 | in every run each system_stats row is the average of a tree of averages, one level per tier, whose leaves are 1m rows sent for its system within the sum of the tiers' windows, and what the jobs took, before the row |
| StoredPeaks.StoredPeak | internal/records/records.go:177-444 | so the peak that a stored 10m to 480m row carries is the largest value among those leaves |
| StoredPeaks.NoPeakMissed | internal/records/records.go:88-148 | the peak of a 10m row is at least every value sent for its system in the ten minutes before, pruning or not |
| RollUp.RecordManager.RunJob | internal/records/records.go:94-148 | one body of the innermost loop inserts the row the job defines or none |
| RollUp.RecordManager.CreateLongerRecords | internal/records/records.go:41-155 | the nested loops run the jobs of every system, tier and collection in order |
| RollUp.RecordManager.DeleteOldSystemStats | internal/records/records_deletion.go:60-99 | exactly the rows older than the retention of their kind are deleted, from both collections |
| GpuSnapshots.SnapshotsAreQueues | agent/gpu.go:308-443 | for every GPU and every interleaving of what the parsers do and of reads with any keys, totals and snapshots report what separate queues of unread samples would: two-decimal means of exactly the samples since the key's last read; no read may find 2^32 of the GPU's samples, and it may be entered anew only while its snapshots hold nothing |
| GpuSnapshots.ReadRefines | agent/gpu.go:354-443 | one read gives the reading of the key's queue and empties it, and no other |
| GpuSnapshots.KnownRefines | agent/gpu.go:187-305 | adding a sample to a known GPU, renaming it and suspending it keep totals and queues in step |
| GpuSnapshots.EnterRefinesIff | agent/gpu.go:187-200 | entering a GPU anew keeps totals and queues in step if and only if no snapshot of it holds anything |
| GpuReentry.EnterTrueIff | agent/gpu.go:187-200 | after a GPU is entered anew every continuation reports what the queues would, if and only if no snapshot of it holds anything |
| GpuReentry.RunEnterTrueIff | agent/gpu.go:187-443 | over runs: as long as every entry is of that kind every continuation is right, and the first that is not opens the way to a wrong report |
| GpuReentry.EnteredHidesSample | agent/gpu.go:187-200 | for one, the next sample can look like none at all |
| GpuSnapshots.EachSampleOnce | agent/gpu.go:390-443 | the batches a key has averaged and what it has not read yet are all samples in order, none twice |
| GpuSnapshots.DivisorExactIff | agent/gpu.go:390-395 | the 32-bit difference is the number of unread samples if and only if there are fewer than 2^32 |
| GpuLaws.ReportIs | agent/gpu.go:308-443 | what is reported wherever totals and queues are in step: the nearest hundredths of the means of the unread samples, of each engine and of the busiest; without such samples nothing for a suspended GPU and otherwise the last average of any key; the last temperature and memory seen; and the id after the name exactly when another GPU has the name |
| Rounding.NearestHundredth | agent/utils/utils.go:35-37 | rounding to two decimals gives the nearest hundredth, of two the one further from zero |
| Series.LargestUnique | agent/gpu.go:408-421 | the largest engine mean does not depend on the order of the engines |
| GpuManager.GPUManager.AddSample | agent/gpu.go:201-305 | a sample is added to its GPU's totals, and what it says of temperature and memory replaces the last values |
| GpuManager.GPUManager.Enter | agent/gpu.go:196-199 | the entry is replaced by one with zero totals |
| GpuManager.GPUManager.Register | agent/gpu.go:256-260 | a GPU is created if it is not known |
| GpuManager.GPUManager.Rename | agent/gpu_nvtop.go:77-78 | a known GPU takes the name of its sample |
| GpuManager.GPUManager.Suspend | agent/gpu_nvml.go:163-177 | a suspended GPU loses its temperature and memory use, without a sample |
| Series.AddAll | agent/gpu_intel.go:41-46 | the loop adds each named value to its total |
| GpuManager.IntelUsage | agent/gpu.go:408-421 | the loop gives the rounded mean of each engine and the rounded largest mean |
| GpuManager.GPUManager.CountNames | agent/gpu.go:345-351 | a name counts more than one exactly when another GPU has it |
| GpuManager.GPUManager.CalculateAverage | agent/gpu.go:354-387 | the average of the new samples, remembered; or the last one, or zero for a suspended GPU |
| GpuManager.GPUManager.GetCurrentData | agent/gpu.go:308-329 | the loop over the GPUs gives the readings of the key and leaves its snapshots at the present totals |
| Counters.RiseExactIff | agent/network.go:201-207 | a rise is reported as the floor of the true rate if and only if a thousand times the rise fits a word |
| Counters.DropCaughtIff | agent/network.go:201-219 | a drop is seen as a rate above a limit if and only if the interval is short enough for its size |
| Counters.DropIsCaught | agent/network.go:201-219 | every drop of 1 to 2^53 bytes within 10^8 ms is caught by any limit below 94 GB a second |
| NetworkTotals.ResetNeverReported | agent/network.go:210-237 | a drop of either total that is caught is never reported, clears every baseline and detects the interfaces anew |
| NetworkTotals.NextOnlyRebases | agent/network.go:142-152 | the gather after that reports zero and only sets its baseline, whatever its interval |
| NetworkTotals.ReportsAreTrue | agent/network.go:81-237 | over every run in which the sums that are compared are plausible, however long and with any number of resets and detections, each report is zero or the true rate, within the limit, since the gather before it for its interval, over the same interfaces |
| NetworkTotals.TrueRatesAreReported | agent/network.go:81-237 | after a rise within the limit that rate is reported if no detection lies between the two sums, and nothing if one does |
| NetworkTotals.RejectedIff | agent/network.go:210-237 | a gather that is compared is rejected if and only if a total dropped or a rate is above 10^10 bytes a second |
| NetworkTotals.InterfacesAre | agent/network.go:81-121 | in every run a gather detects interfaces first if and only if none is tracked, and sums over what the last detection found |
| NetworkTotals.TotalExactIff | agent/network.go:155-198 | the sums are those of the tracked interfaces and no others, if and only if those fit 64 bits |
| NetworkTotals.TotalIs | agent/network.go:155-198 | and otherwise modulo 2^64 |
| DiskIo.DiskResetNeverReported | agent/disk.go:628-649 | a drop of either disk counter that is caught is never reported |
| DiskIo.DiskReportTrue | agent/disk.go:628-649 | what is reported of two plausible readings of a disk is the true rate between them, over at least 100 ms and within the limit |
| DiskIo.ZeroedTrueIff | agent/disk.go:577-582 | reports against a zeroed seed are true for every plausible reading if and only if a thousand times each counter is a multiple of 2^64 |
| DiskIo.ReportsTrueIff | agent/disk.go:554-690 | in every run, whatever plausible reading comes next for an interval reports nothing or that rate, if and only if the interval has a reading, no usage read has failed since the seed, or zeroing the seed's counters changes no product |
| DiskIo.DiskReportsAreTrue | agent/disk.go:554-690 | over every run of plausible readings, for any intervals and with any number of resets and failed usage reads, each report is the true rate since the last reading for the interval or, for its first, since the last reading that became the seed, unless the seed's counters were lost |
| DiskIo.DiskRatesAreReported | agent/disk.go:628-690 | and a rate within 50,000 MB a second over at least 100 ms is reported |
| DiskIo.SeedingIff | agent/disk.go:534-690 | in every run a reading becomes the seed if and only if it initialises the device or is at least 100 ms after the one it is compared with |
| DiskIo.FailureMisleads | agent/disk.go:577-582 | a failed usage read turns a standstill into more than 15,000 MB a second |
| DiskIo.DiskTotals.Update | agent/disk.go:604-649 | one reading of a device is compared with its interval's snapshot, or the seed, or itself, becomes the snapshot, and becomes the seed after at least 100 ms |
| DiskIo.DiskTotals.Initialize | agent/disk.go:534-551 | initialising a device makes its reading the seed |
| DiskIo.DiskTotals.FailUsage | agent/disk.go:577-582 | a failed usage read zeroes the seed's counters and keeps its time |
| NetworkTotals.Agent.Update | agent/network.go:81-237 | one gather detects interfaces if none is tracked, reports and rebases as defined, and clears every baseline on an invalid rate |
| NetworkTotals.Agent.Sum | agent/network.go:155-198 | the loop sums the counters of the tracked interfaces in 64-bit arithmetic |
| NetworkTotals.Agent.Initialize | agent/network.go:95-121 | a detection replaces the interfaces and clears every baseline |
| DeltaTracker.OrdersAgreeIff | agent/deltatracker/deltatracker.go:34-100 | on every run of intervals the container order and the network order report the same delta if and only if the counter did not go back; it is then the growth, otherwise the one is the growth modulo 2^64 and the other the counter itself, and both are zero for a key that skipped an interval |
| DeltaTracker.DeltasTelescope | agent/docker.go:296-323 | for a key read in every interval the deltas sum to last minus first |
| DeltaTracker.RunsAre | agent/network.go:155-195 | after any run the tracker holds the last readings as previous in one order, and the last two in the other |
| DeltaTracker.DeltaTracker.Delta | agent/deltatracker/deltatracker.go:77-92 | the 64-bit difference when the key is in both maps, otherwise zero |
| DeltaTracker.DeltaTracker.Deltas | agent/deltatracker/deltatracker.go:51-64 | the delta of every current key |
| DeltaTracker.DeltaTracker.Cycle | agent/deltatracker/deltatracker.go:95-100 | current becomes previous and starts empty |
| DeltaTracker.DeltaTracker.SetDeltaCycle | agent/docker.go:306-323 | one interval in the container order reports the differences from the interval before |
| DeltaTracker.DeltaTracker.CycleSetPrevious | agent/network.go:155-195 | one interval in the network order reports the growth since the interval before, counting from zero after a reset |
| SmartMerge.EveryDeviceRepresented | agent/smart.go:629-755 | a name is in the result if and only if a named scanned or configured device has it, and the scanned devices come first in order |
| SmartMerge.VerifiedKept | agent/smart.go:659-719 | a scanned device matched to a verified record keeps that record's type and parser whatever is configured |
| SmartMerge.ConfiguredVerifiedKept | agent/smart.go:739-751 | so does a configured device that nothing scanned answers to |
| SmartMerge.RecordIsOverridden | agent/smart.go:724-737 | a record ends up as its original overridden by the configured devices that hit it, in order, and by no others |
| SmartMerge.LastOverrideWins | agent/smart.go:670-685 | the last non-empty configured value of each field wins, the type only while it is not verified |
| SmartLaws.TargetIff | agent/smart.go:724-737 | a configured device overrides a record if and only if it is the last with its name and type or, without one, the only scanned one of its name |
| SmartLaws.EarlierIff | agent/smart.go:687-719 | the earlier record of a device is the last with its name and type or, without one, the only one of its name |
| SmartLaws.ScannedIs | agent/smart.go:659-719 | a scanned device keeps its own fields, with the type and parser of its earlier record if that was verified |
| SmartLaws.AddedIs | agent/smart.go:739-751 | so does a configured device that overrides nothing, and one seen for the first time has its parser from its type |
| SmartMerge.ParserTypes | agent/smart.go:344-355 | a parser type is the trimmed lower-case value, with NVMe bridges as nvme and ATA as sat, and is its own parser type |
| SmartMerge.VerifiedForever | agent/smart.go:629-755 | over any number of refreshes that each leave one record of its name, a drive verified once keeps its type and parser |
| SmartMerge.MergeKeepsKnownIff | agent/smart.go:629-755 | one merge keeps a verified drive alone under its name with its type and parser if and only if the name is scanned once, or not scanned and configured with every configured device after the first of that type, or nothing is reported at all |
| SmartMerge.VerifiedLost | agent/smart.go:700-719 | a refresh that scans a verified drive twice, followed by one that scans it once under another type, leaves it unverified |
| SmartDevices.IndexByKey | agent/smart.go:687-693 | the index leads from a name and type to the last such record |
| SmartDevices.UniqueByName | agent/smart.go:636-654 | the index holds exactly the names that occur once, with their device |
| SmartDevices.CopyScanned | agent/smart.go:701-719 | the first loop gives fresh copies of the scanned devices in order, with what was verified, and indexes them |
| SmartDevices.ConfigureAll | agent/smart.go:724-752 | the second loop overrides or appends as the merge defines, changing only copies |
| SmartDevices.MergeDeviceLists | agent/smart.go:629-755 | the result is the merge of the three lists, made of new records unless there is nothing to merge, and no input record is changed |
| DockerLogs.DecodeLogStream | agent/docker.go:901-945 | the loop writes what the frames define and ends with their outcome, consuming input at each turn; an unframed stream is copied up to 5 MiB, and nothing ever exceeds that |
| DockerLogs.OutputBounded | agent/docker.go:929-935 | whatever the bytes are, the output never exceeds 5 MiB |
| DockerLogs.RoundTrip | agent/docker.go:908-945 | decoding an encoding yields the payloads of the longest prefix of frames that fits, and fails exactly when the next frame is too large on its own |
| DockerLogs.LongestFitUnique | agent/docker.go:929-935 | there is only one such prefix |
| DockerLogs.TruncationIsPrefix | agent/docker.go:908-945 | cutting any stream at any byte only cuts the output short |
| DockerLogs.TruncatedRoundTrip | agent/docker.go:908-945 | any truncation of an encoding decodes to a prefix of the payloads |
| DockerLogs.SniffsEncodings | agent/docker.go:884-899 | an encoding is recognised exactly when it starts with an acceptable stdout or stderr frame |
| InstallBinary.NeverLosesTheAgent | agent/handler_push_binary.go:120-186 | wherever the installer stops, whatever failed and whatever was pruned, one of the three paths holds the whole old or new binary and the path never holds part of one |
| InstallBinary.SuccessInstalls | agent/handler_push_binary.go:141-186 | success leaves the new binary at the path, whatever was there before |
| InstallBinary.ErrorsKeepOldIff | agent/handler_push_binary.go:167-185 | without pruning every failure leaves the old binary at the path or in .bak, for all patterns of failing calls, if and only if .bak was absent or held the old binary |
| InstallBinary.InstallLeaves | agent/handler_push_binary.go:141-186 | for every pattern of failing calls, whether the procedure succeeds, and what the path, the backup and the new file hold in each case |
| InstallBinary.MishapLosesOld | agent/handler_push_binary.go:167-185 | otherwise there is a pattern of failures that moves the earlier backup over the installed binary |
| InstallBinary.ProcedureIsARun | agent/handler_push_binary.go:141-186 | every run of the procedure is one of the runs these theorems are about |
| InstallBinary.Disk.InstallNew | agent/handler_push_binary.go:141-186 | the procedure ends with the result and the files the machine ends with, for every outcome of its calls |
| DiskChoice.BestIsUnique | agent/disk.go:461-468 | a set of candidates has at most one best by bytes, operations and name |
| DiskChoice.LessTotal | agent/disk.go:463-465 | names are totally ordered, so ties are always broken |
| DiskChoice.SearchDeterminedIff | agent/disk.go:435-472 | the search gives the same result for all orders of the map if and only if its exact matches have one name |
| DiskChoice.SearchAnswers | agent/disk.go:435-472 | whatever the order, the search gives an exact match if there is one, else the best related device, else nothing |
| DiskChoice.ExactIsAnswered | agent/disk.go:443-446 | each exact match is the result for the orders that visit it first |
| DiskChoice.MostActiveDeterminedIff | agent/disk.go:476-491 | the most active device is the same for all orders if and only if no device without a name beats all named ones |
| DiskChoice.MostActiveIsBest | agent/disk.go:476-491 | and it is then the best named device |
| DiskLaws.SearchIs | agent/disk.go:435-472 | whatever the order, a name leads to a device called by it or else to the one of those whose name it extends or begins that moved most bytes, then made most operations, then has the smallest name |
| DiskLaws.MostActiveIsFirst | agent/disk.go:476-491 | among devices with names, the most active one is first in that order |
| DiskLaws.LessIff | agent/disk.go:463-465 | names compare by the first character that differs |
| DiskChoice.FindIoDevice | agent/disk.go:435-472 | the loops return the result of the search for the order in which the map is visited |
| DiskChoice.MostActive | agent/disk.go:476-491 | the loop returns the result for the order in which the map is visited: the best of all devices when no name is empty |
| DiskChoice.Discovery.AddPartitions | agent/disk.go:349-354 | the first partition that becomes root ends the search, and is registered unless its key is taken; extra filesystems are registered beside it |
| DiskChoice.Discovery.PruneDuplicates | agent/disk.go:378-422 | if there is a root with a mountpoint, exactly the other entries whose usage is within 16 MiB of root's are dropped |
| DiskChoice.Discovery.Initialize | agent/disk.go:302-375 | the phases leave exactly the entries discovery defines, with root as the next row says |
| DiskChoice.RootIff | agent/disk.go:302-375 | discovery ends with one root entry, unless no setting named it and the partition taken for root had its key registered already, and then with none |
| DiskLaws.RegisteredIs | agent/disk.go:180-298 | each key is registered with the entry of the first to name it, in the order setting, extra filesystems, partitions, folders; only the first partition that can be is taken for root; folders on registered mountpoints are passed over; the last resort replaces what is there |
| DiskLaws.DiscoveredIs | agent/disk.go:302-422 | of these, exactly the ones other than root whose size and usage are within 16 MiB of root's are dropped, if root's mountpoint is known |
| DiskChoice.RootlessHappens | agent/disk.go:204-213 | the root partition configured as an extra filesystem leaves a map without root |

## Left out

- Dialing, encodings, SQL text, PocketBase, mail and webhooks: tables are maps or sequences and sends are recorded events.
- Failing database reads and saves, except where a row says so: a handler's saves succeed.
- Deletion of systems, and the stop of the alert manager.
- `HandleSystemAlerts` called from a status write is a separate step of the status machine that may set or clear any other alert.
- `RequestMux`: opening messages from agents that are not replies; a message is a reply as soon as it is read.
- StatusTimers.DownMeansDown: does not bound how late the notification is, because the model has no fairness.
- StatusAlerts.HistoryMatchesAlerts: excludes runs with history pruning, where `StepGood` gives at most one open row.
- ThresholdAlerts.FlipIsAgreed: models min/1.2 as a real quotient, not in 32-bit floating point.
- ThresholdHandler.HandleSystemAlerts: rows that do not decode, unknown kinds and the texts of the messages are not modelled, and a filesystem without a size has no percentage.
- DiskIo.DiskReportsAreTrue: one device; utilisation, waiting times and the other I/O figures are not modelled, the clock is read once per reading and never goes back, and an extra filesystem's figures stay as last reported.
- NetworkTotals.ReportsAreTrue: the rates of single interfaces are not modelled, and the clock never goes back.
- GpuSnapshots.SnapshotsAreQueues: starts after the vendor tools' output has been parsed, and takes the low 32 bits of the count where Go leaves the conversion of a larger float open.
- Averages.AverageSystemStats: records are maps from series to values, so a missing map and an empty one are the same; container averages are a parameter of `RollUp`.
- SmartMerge.LastOverrideWins: trimming and lower-casing are those of ASCII text.
- DiskChoice.Discovery.Initialize: the keys that devices resolve to are given, so the results hold for every way to resolve them; whether a search is determined is a matter for `SearchDeterminedIff`.
- Floating-point error everywhere: values are reals or integers in hundredths, with the source's rounding written out.
- Realtime workers, connection liveness, the expiry map, quiet hours, the updater, sysfs readers and the web front end.
