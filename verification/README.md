# Verification of the EMS command, relay, allocation and firmware logic

This project models the parts of the energy management system whose mistakes would be hard to see from
one function: the command protocol between the cloud and a Pi, the relay interlock on the Pi, the daily
allocation policy, the calendar arithmetic behind day allocation, the A/B firmware slots, the crash-safe
state file and the meter baselines. `dafny verify dfyconfig.toml` checks everything.

## How it is organised

| file | what it is about |
|---|---|
| `Vocabulary.dfy`, `Selection.dfy` | wings, commands, tokens; `ORDER BY ... LIMIT n` over a finite set |
| `OfflineQueue.dfy`, `QueueLaws.dfy`, `Retention.dfy` | the Pi's durable queue as a class, what each call makes of which row, and the 30-day-or-500 retention policy |
| `CloudCommands.dfy`, `CommandDesk.dfy` | the cloud's transactions as functions, and the endpoints as a class over the tables |
| `AckPaths.dfy`, `AckLaws.dfy`, `SyncLaws.dfy`, `Configuration.dfy` | which ACK is answered how and what it changes; what a sync makes of each row, and that a reported command is never delivered again; the reset day and the configuration version over every run |
| `CloudRuns.dfy`, `TargetWrites.dfy` | runs of cloud transactions: life of a command row, and which ACKs write a wing's target |
| `MixedDays.dfy`, `ManualDays.dfy`, `WingBatches.dfy`, `BatchConfluence.dfy` | whose days are in the schedule: manual and batch `set_days` together, manual ones alone, batches over any wings, batches over the same wings |
| `BuriedFailures.dfy`, `PhantomAcks.dfy` | the ACK after which publication and completion part |
| `CommandProtocol.dfy`, `ProtocolSafety.dfy`, `CommandMeaning.dfy`, `EndToEnd.dfy` | the protocol as one step relation over cloud rows, Pi rows, messages and one clock; its invariant and safety over every run; what a completed command says was done; the schedule end to end |
| `ProtocolExample.dfy` | one complete run of that protocol |
| `RelayTrace.dfy`, `GpioManager.dfy` | the two rules of the interlock over a trace of relay writes and readings, and the manager as a class that keeps them at every instant |
| `EmsController.dfy` | command execution, recovery after a reboot and local transitions over the queue and the relays, in step with the protocol |
| `AllocationPolicy.dfy`, `AllocationLaws.dfy`, `AllocationDay.dfy` | the seven-state policy as a class, what it decides in each situation in terms of the measurements, and its guarantees over a day and over a process run |
| `Calendar.dfy`, `DayAllocation.dfy`, `DaySchedule.dfy` | reset periods, largest-remainder apportionment, and the day schedule with its closed-form usage |
| `FirmwareSlots.dfy`, `FirmwareControl.dfy` | the A/B slots, and the flag under which the controller updates them |
| `StateFile.dfy`, `MeterBaselines.dfy` | crash-safe state, meter deltas |

Objects the source updates in place are classes. Each state-changing method is proved against a function or
relation on the state's value, and the theorems are about those functions. Feedback
samples and clock steps are free choices; which writes take effect and what the network answers are parameters.

The protocol (`CommandProtocol`) keeps messages in sets that only grow, so a message may come late, twice or
never. The Pi may crash between any two durable writes. Cloud and Pi share one clock that never goes back.
`EmsController` carries a ghost protocol state: every durable write its methods make to the command queue is
proved to be an enabled protocol step, the hourly cleanup included, so every theorem about runs applies to the
class, and the tokens the protocol assumes of a successful hardware operation are proved of the relay layer.

## What the proofs found

- `resolve_ack_path` documents that hardware reaches `completed` only with positive verification. The two
  direct edges are not guarded: a non-positive token completes a hardware row exactly when it is
  `hardware_verified` or `unknown_after_reboot` (`AckPaths.UnverifiedHardwareCompletion`). End to end the
  documented rule does hold, because of what the Pi sends (`ProtocolSafety.TerminalAgreement`).
- A software row jumps from executing to completed, an edge `COMMAND_TRANSITIONS` does not have
  (`AckPaths.PathShape`).
- `publish_completed_batch` counts `acked` as applied. A published batch was completed in full exactly when no
  step of the run acknowledged one of its commands while that was failed or expired
  (`PhantomAcks.PublishedMeansCompleted`); such an ACK puts the days of a failed command into the schedule
  (`PhantomAcks.PhantomAckPublishes`). The Pi acknowledges a software command only after its completion was
  accepted, so protocol runs contain no such step (`EndToEnd.NothingIsBuried`).
- The same ACK lets a failed manual `set_days` keep an older one, completed later, out of the schedule
  (`ManualDays.BlockedExample`); `ManualDays.NewestCompletedExactly` has the exact condition, over every run.
- Manual and batch `set_days` mix badly. A newer command of a batch that is never completed still hides an older
  manual one, so a manual command may complete without its days, or any other, entering the schedule
  (`MixedDays.MixedExample`). And publication does not look at manual commands: an older batch that is completed
  later (`MixedDays.OlderBatchOverwrites`), or a late ACKED for an older batch (`MixedDays.LateAckOverwrites`),
  overwrites the days of a newer manual command. `MixedDays.NewestManualExactly` says over every run when the
  newest manual command has its days in the schedule.
- Batches over different wings: a batch that is completed after a newer one is not published at all, so a wing that
  only the older one sets does not get its days (`WingBatches.NarrowBatchHides`). `WingBatches.HighestBatchExactly`
  is the exact condition for each wing over every run, manual commands included. Over one list of wings the
  schedule is always one batch's (`BatchConfluence.BatchConfluence`).
- The deadtime is tied to `active_slot`, which a deactivation empties: after it the next wing may be switched on at
  once (`GpioManager.GpioManager.SwitchOnAfterDeactivation`, `RelayTrace.NoDeadtimeAfterDeactivation`).
  `RelayTrace.DeadtimeExactly` says when every wing has rested.
- `off_all` can succeed only if the wings in use all have feedback or none has
  (`EmsController.EmsController.Operate`).
- At boot the relays have just been driven off, so reconciliation succeeds only with no wing active: the branch
  of recovery that completes an interrupted ACTIVATE is never taken (`EmsController.EmsController.Boot`).
- `persistence_started_at` survives a restart, so the hold window holds for every run of a process exactly
  when the process inherits no running timer (`AllocationDay.HoldWindowExactly`). Losing the attribution clears
  the timer without marking the state dirty, so the stored timer may even be one that had been cleared.
- If the power fails between the two writes of an activation, `pending.json` stays at ACTIVATING; a further
  activation then reports success without activating anything (`FirmwareSlots.ActivationCutShort`).
- Whatever is staged while a release is on trial is written into the half the rollback returns to. That half is
  what it was before the activation exactly when nothing was staged during the trial
  (`FirmwareSlots.RollbackReturnsExactly`); otherwise the rollback starts a release as confirmed that was never
  tried (`FirmwareSlots.UntriedReleaseStarts`), or even the one that failed (`FirmwareSlots.StagedDuringTrial`).
  `ems-ota-stage.py` has no guard against this. When staging and activation happen only outside trials, every
  rollback restores what ran before (`FirmwareSlots.GuardedRollbackRestores`).
- The controller's guard is a flag in memory that is set before the confirmation is written. The flag means that
  nothing is on trial exactly when that write took effect (`FirmwareControl.OtaController.AfterSync`). If it raises,
  the main loop goes on with the flag set (`FirmwareControl.ConfirmationLost`): a further release is staged and
  activated during the trial (`FirmwareControl.ChainedTrial`), and without one the next start rolls the healthy
  release back (`FirmwareControl.HealthyRolledBack`).
- A save of the state file that fails at its directory fsync leaves its document in place, and it may come back
  after a later crash. Over every run of saves since the last stored one, what comes back is the last stored
  document or the one being written exactly when no earlier save of the run failed there
  (`StateFile.LastOrNewestExactly`, `StateFile.PiStateManager.CrashSafety`); in all cases it is the last stored one
  or one that failed there (`StateFile.WhatMayComeBack`), and never older than the last stored one
  (`StateFile.NothingOlder`). `StateFile.FailedSaveReappears` is such a crash. A save over a corrupt STATE destroys
  the good BACKUP before the new file is in place, unless RECOVERY is good (`StateFile.NeverNothing`).

## Model

| member | source | states |
|---|---|---|
| `Selection.Oldest` | pi_firmware/offline_queue.py:432-453 | picking the row with the smallest key: the result is in the set and no other row is older |
| `Selection.TakeOldest` | pi_firmware/offline_queue.py:553-574 | ORDER BY with LIMIT: distinct rows in key order, as many as there are up to the limit, nothing left out that is older than something taken |
| `OfflineQueue.OfflineQueue.AddCommand` | pi_firmware/offline_queue.py:264-366 | the first delivery inserts a DELIVERED row; a repeat leaves the row alone and is accepted only for the same slot and action; refused storage changes nothing |
| `OfflineQueue.OfflineQueue.ClaimNext` | pi_firmware/offline_queue.py:368-530 | overdue DELIVERED rows expire, the oldest unexpired one becomes EXECUTING and raises last_executed_sequence; nothing is returned exactly when none is claimable |
| `OfflineQueue.OfflineQueue.OldestClaimable` | pi_firmware/offline_queue.py:432-457 | the candidate is claimable and no claimable row was created earlier |
| `OfflineQueue.OfflineQueue.UpdateStatus` | pi_firmware/offline_queue.py:582-696 | moves exactly along VALID_TRANSITIONS with the matching timestamp; any other move changes nothing and returns false |
| `OfflineQueue.OfflineQueue.MarkAcked` | pi_firmware/offline_queue.py:698-756 | only a final row is acknowledged, once; a repeat keeps the first acknowledgement time |
| `OfflineQueue.OfflineQueue.MarkAckRejected` | pi_firmware/offline_queue.py:775-798 | a pending row becomes REJECTED, anything else stays |
| `OfflineQueue.OfflineQueue.GetExecutedCommandIds` | pi_firmware/offline_queue.py:809-822 | the 50 most recently started executed commands, newest first |
| `OfflineQueue.OfflineQueue.GetUnacked` | pi_firmware/offline_queue.py:553-580 | the ten oldest final rows whose acknowledgement is pending |
| `OfflineQueue.OfflineQueue.GetInterrupted` | pi_firmware/offline_queue.py:532-551 | every row left EXECUTING, HARDWARE_VERIFIED or UNKNOWN_AFTER_REBOOT, in start order |
| `OfflineQueue.OfflineQueue.CleanupAcked` | pi_firmware/offline_queue.py:1018-1099 | one call deletes the oldest rows beyond the policy, at most 100, and nothing else |
| `QueueLaws.ClaimExactly` | pi_firmware/offline_queue.py:368-530 | a writable claim: every overdue DELIVERED row is EXPIRED now, every other row but the claimed one stays, the sequence number only grows, and nothing is claimed exactly when no unexpired row waits |
| `QueueLaws.ClaimedExactly` | pi_firmware/offline_queue.py:432-530 | the claimed row was waiting and created first; it is EXECUTING, started now, as one attempt more, and nothing else of it changes |
| `QueueLaws.UpdateExactly` | pi_firmware/offline_queue.py:582-696 | an update is accepted exactly along the transition table, stamps the time that belongs to the new status, and touches no other column or row |
| `QueueLaws.InsertExactly` | pi_firmware/offline_queue.py:264-366 | a new command waits with every column as delivered; one that is there stays as it is |
| `QueueLaws.MarkAckedExactly` | pi_firmware/offline_queue.py:698-756 | exactly a final row is acknowledged, and only its first acknowledgement is dated |
| `QueueLaws.MarkRejectedExactly` | pi_firmware/offline_queue.py:775-798 | exactly a pending row is rejected, dated now |
| `QueueLaws.UnackedPage` | pi_firmware/offline_queue.py:553-580 | at most ten, all to be acknowledged, by time of completion; one that is not listed completed no earlier than all that are |
| `QueueLaws.ExecutedReport` | pi_firmware/offline_queue.py:809-822 | at most fifty commands, all begun, the last one first; one that is not listed was begun no later than all that are |
| `QueueLaws.InterruptedList` | pi_firmware/offline_queue.py:532-551 | exactly the commands begun and not ended, once each, in the order of their start, or else of their verification or creation |
| `OfflineQueue.NthNewestUnique` | pi_firmware/offline_queue.py:1050-1066 | there is only one 500th-newest acknowledgement time, so the retention bar is well defined |
| `OfflineQueue.NewestPrefixGivesNth` | pi_firmware/offline_queue.py:1050-1066 | the last of the 500 newest history rows carries that time |
| `Retention.NthNewestExists` | pi_firmware/offline_queue.py:1050-1066 | with at least 500 history rows the bar exists |
| `Retention.DisposableIsThePolicy` | pi_firmware/offline_queue.py:1012-1017 | a row may go exactly when it is acknowledged, older than 30 days, and at least 500 acknowledgements are newer, in these numbers |
| `Retention.CleanupKeepsBar` | pi_firmware/offline_queue.py:1018-1099 | a call leaves the 500th-newest acknowledgement time unchanged |
| `Retention.CleanupStep` | pi_firmware/offline_queue.py:1018-1099 | at most 100 rows go, never an unacknowledged one, and what is left to delete is exactly what was not taken |
| `Retention.DrainReachesPolicy` | pi_firmware/offline_queue.py:1018-1099 | after n calls at one time, min(100 n, all) disposable rows are gone, nothing else, and the bar has not moved |
| `Retention.DrainEndsAtPolicy` | pi_firmware/offline_queue.py:1018-1099 | the table is what the policy keeps exactly when 100 times the calls reach the number of disposable rows |
| `AckPaths.PathShape` | backend/main.py:233-265 | a path ends at its target, never passes through or leaves a terminal state, and follows the transition table except for the software jump to completed |
| `AckPaths.SoftwareCompletion` | backend/main.py:242-253 | software completes only with its own result token and never via hardware_verified |
| `AckPaths.UnverifiedHardwareCompletion` | backend/main.py:254-265 | a non-positive token completes a hardware row exactly from hardware_verified or unknown_after_reboot |
| `AckPaths.UnverifiedCompletionExample` | backend/main.py:254-255 | unknown_after_reboot goes to completed with the token UNKNOWN |
| `AckLaws.HardwarePathExactly` | backend/main.py:206-265 | a hardware ACK has a path exactly when its status can be reached by way of executing and hardware_verified, and completion by more than one hop needs a positive token |
| `AckLaws.SoftwarePathExactly` | backend/main.py:206-253 | the same for software: one hop, or the jumps to completed and failed, and completed only with the command's own result |
| `AckLaws.AnswerExactly` | backend/main.py:2055-2121 | each answer in terms of row and ACK: applied exactly when it moves the row on, belongs to the current attempt and, for hardware_verified, is positive; repetitions and what the row is past are harmless; each conflict by name |
| `AckLaws.OkMeansAtLeast` | backend/main.py:2048-2157 | after a 200 the row is at the status of the ACK or past it |
| `AckLaws.AckEffect` | backend/main.py:2101-2157 | an applied ACK writes its own row only, any other ACK nothing at all |
| `AckLaws.AckTwice` | backend/main.py:2055-2070 | a repeated ACK is answered as a repetition and changes nothing |
| `AckLaws.FinalReport` | backend/main.py:2055-2121 | the Pi's final report of a hardware command in the current attempt is refused exactly when the cloud has another terminal status, has it queued again, or has started what the Pi calls expired |
| `AckLaws.QueueOneEnters` | backend/main.py:2191-2246 | what a queued command looks like, and which values are accepted for which command |
| `AckLaws.QueueWingsEnter` | backend/energy_api/day_allocation.py:203-222 | wing k of a batch is the k-th row, with its days, and no other row changes |
| `CommandDesk.CommandDesk.QueueCommand` | backend/main.py:2191-2246 | a valid command gets the next sequence number and a 300 s life; an invalid one changes nothing |
| `CommandDesk.CommandDesk.QueueSetDays` | backend/energy_api/day_allocation.py:203-222 | one set_days row per wing on consecutive sequence numbers, all of one batch, which then names each of its wings once |
| `CommandDesk.CommandDesk.Sync` | backend/main.py:1884-1957 | the five UPDATE statements in order, then the delivery of the queued row with the lowest sequence, are one function of the table; `SyncLaws` says what it makes of each row |
| `CommandDesk.CommandDesk.UpdateRows` | backend/main.py:1900-1923 | promotion, supersession, lease reclaim, expiry and software expiry compose to one function per row |
| `SyncLaws.SyncTable` | backend/main.py:1884-1957 | the status of each row after a sync, from its report, the last executed sequence, its 120 s lease and its 300 s life; no other column changes but the time of delivery and the outcome |
| `SyncLaws.SyncDelivery` | backend/main.py:1924-1957 | the delivered row was queued with the lowest sequence, and is delivered now as one attempt more |
| `SyncLaws.ReportedNeverDelivered` | backend/main.py:1897-1912 | over every run: a command listed as executed, or passed by the last executed sequence, leaves the queue in that sync and is never delivered again |
| `SyncLaws.WaitingRow` | backend/main.py:1913-1922 | over every run: any other waiting command is expired exactly when its life is over, and otherwise queued or delivered as its lease says |
| `CommandDesk.CommandDesk.OldestQueued` | backend/main.py:1925-1926 | the pick is queued and has the lowest sequence, or nothing is queued |
| `CommandDesk.CommandDesk.CommandAck` | backend/main.py:2048-2157 | the reply and the new tables are functions of the tables and the ACK; only an applied ACK writes |
| `CommandDesk.CommandDesk.Screen` | backend/main.py:2055-2121 | the guards of the endpoint give exactly the specified answer |
| `CommandDesk.CommandDesk.CommitConfiguration` | backend/main.py:2101-2136 | a completed set_days or set_reset_day commits its value, unless a newer set_days is committed or a batch owns it; `Configuration` and `TargetWrites` say it of the rows |
| `Configuration.StepResetDay` | backend/main.py:2132-2140 | an applied completed ACK of a set_reset_day leaves its day as the reset day, and no other transaction changes it |
| `Configuration.LastResetDay` | backend/main.py:2132-2140 | over every run: the reset day is the one of the set_reset_day completed last, or the initial one |
| `Configuration.StepVersion` | backend/main.py:2101-2157 | the configuration version grows by one exactly when a reset day, a manual day count or a publication that changes a wing is committed |
| `Configuration.VersionTells` | backend/energy_api/day_allocation.py:145-200 | over every run: whenever targets or reset day differ between two points the version has grown |
| `CommandDesk.CommandDesk.NewerSetDaysCommitted` | backend/command_reliability.py:25-36 | true exactly when a later set_days of the wing is completed or acked |
| `CommandDesk.CommandDesk.PublishCompletedBatch` | backend/energy_api/day_allocation.py:145-200 | publishes exactly when the batch is fully applied and no higher one is, and then sets exactly the batch's wings |
| `CommandDesk.CommandDesk.MaxSequence` | backend/energy_api/day_allocation.py:165 | the highest sequence of the batch |
| `CommandDesk.CommandDesk.WriteTargets` | backend/energy_api/day_allocation.py:178-199 | the row loop writes the batch's value for each of its wings, leaves the others, and reports a change exactly when there was one |
| `CommandDesk.UpdatesCompose` | backend/main.py:1900-1923 | the source's separate UPDATE passes over the whole table equal one pass row by row |
| `CommandDesk.SupersededByRow` | backend/energy_api/day_allocation.py:166-174 | the GROUP BY query finds a row exactly when another fully applied batch has a higher top sequence |
| `CloudRuns.StepKeepsSlots` | backend/energy_api/day_allocation.py:203-222 | no transaction makes two rows of one batch name the same wing, so publication does not depend on row order |
| `CloudRuns.RunKeepsSlots` | backend/energy_api/day_allocation.py:203-222 | no two rows of one batch name the same wing at any point of any run |
| `CloudRuns.StepKeeps` | backend/main.py:1884-2157 | every transaction keeps the row facts (life, lease, attempt bound, outcome) and lets rows only evolve |
| `CloudRuns.RunEvolves` | backend/main.py:1884-2157 | between any two points of a run each row evolved along the allowed order |
| `CloudRuns.LeavesWaitingForGood` | backend/main.py:206-216 | a row that left queued and delivered never returns; a terminal outcome never turns into another |
| `CloudRuns.AttemptCountsDeliveries` | backend/main.py:1953-1957 | attempt_count is the number of deliveries in the run |
| `CloudRuns.AtMostThreeDeliveries` | backend/main.py:152-153 | a 120 s lease inside a 300 s life allows at most three deliveries |
| `BatchConfluence.TopUnique` | backend/energy_api/day_allocation.py:165-174 | two different non-empty batches never have the same top sequence |
| `BatchConfluence.TopExists` | backend/energy_api/day_allocation.py:165-174 | among fully applied batches one has the highest top sequence |
| `BatchConfluence.BatchConfluence` | backend/energy_api/day_allocation.py:145-222 | after any run of batches over the same wings, in any ACK order, the targets are the days of the fully applied batch with the highest sequence, or the initial ones; never a mix |
| `WingBatches.HighestBatchExactly` | backend/energy_api/day_allocation.py:145-222 | over every run, manual commands included: a wing has the days of the highest fully applied batch that sets it exactly when no higher batch was fully applied as that one was completed and no manual command wrote last since, or what was there or written is the same |
| `WingBatches.WingBatchesExactly` | backend/energy_api/day_allocation.py:145-222 | with batches only, over any wings: exactly when that batch was not superseded as it was completed, or the wing had its days already |
| `WingBatches.UntouchedWing` | backend/energy_api/day_allocation.py:145-200 | with batches only, a wing that no fully applied batch sets keeps its initial target |
| `WingBatches.NarrowBatchHides` | backend/energy_api/day_allocation.py:165-174 | a completed batch for one wing keeps the other wing of an older batch at its old target |
| `ManualDays.NewestCompletedExactly` | backend/main.py:2101-2129 | over every run of manual set_days: the newest completed one is the wing's target exactly when, as it completed, no newer one had been acknowledged while failed or expired, or the target had its days already |
| `ManualDays.BlockedExample` | backend/command_reliability.py:25-36 | an acknowledged failure keeps the days of an older, completing set_days out of the schedule |
| `ManualDays.NewestCompletedWins` | backend/main.py:2101-2129 | so if none was acknowledged while failed or expired, each wing's target is the newest completed one's, or the initial one |
| `TargetWrites.StepWrites` | backend/main.py:2101-2157 | a transaction leaves a target as it is, or writes what a completing manual command or a published batch says |
| `TargetWrites.LastWrite` | backend/main.py:2101-2157 | between any two points of a run a target is what its last write gave it, or unchanged |
| `MixedDays.NewestManualExactly` | backend/energy_api/day_allocation.py:145-200 | over every run: the newest completed manual command's days are the wing's target exactly when the last batch published since that sets the wing has the same days, or, without one, when its completion found no newer set_days committed or the same days |
| `MixedDays.OlderBatchOverwrites` | backend/energy_api/day_allocation.py:165-199 | an older batch completed after a newer manual command takes the wing back to its days |
| `MixedDays.LateAckOverwrites` | backend/main.py:2155-2157 | so does a late ACKED for a command of an older, published batch |
| `MixedDays.NewestEffectiveDecides` | backend/command_reliability.py:25-36 | in the step in which a manual set_days completes as the newest in force, it sets the target exactly when it had the value already or no newer set_days of the wing is completed in an open batch |
| `MixedDays.MixedExample` | backend/main.py:2101-2129 | a manual set_days completes, no batch is applied, and the target is neither's |
| `BuriedFailures.BuriedExactly` | backend/main.py:2048-2157 | at any point of a run a row is acked without having been completed exactly when an earlier step acknowledged it while it was failed or expired |
| `PhantomAcks.PublishedMeansCompleted` | backend/energy_api/day_allocation.py:18-20 | over every run: a fully applied batch was completed in full exactly when no step acknowledged one of its commands while that was failed or expired |
| `PhantomAcks.PhantomAckPublishes` | backend/energy_api/day_allocation.py:145-164 | acknowledging the one failed command of an otherwise completed top batch puts its days into the schedule |
| `PhantomAcks.PhantomAckExample` | backend/energy_api/day_allocation.py:145-164 | a batch of one failed command does so |
| `ProtocolSafety.StepKeeps` | pi_firmware/ems_controller.py:1208-1425 | every step of the protocol, crash and recovery included, keeps the invariant over cloud rows, Pi rows, messages and history |
| `ProtocolSafety.RunKeeps` | pi_firmware/ems_controller.py:1208-1425 | the invariant holds at every point of every run |
| `ProtocolSafety.ClaimedOnceBeforeExpiry` | pi_firmware/offline_queue.py:329-349 | over every run each hardware command is returned by claim_next at most once, and before its cloud expiry |
| `ProtocolSafety.OneOutcome` | pi_firmware/offline_queue.py:17-51 | a Pi row that was COMPLETED at one point is never FAILED at another |
| `ProtocolSafety.OutcomesAreFinal` | pi_firmware/offline_queue.py:17-58 | a recorded terminal outcome of the Pi never changes later in the run |
| `ProtocolSafety.OutcomeWasDurable` | pi_firmware/offline_queue.py:582-696 | a recorded outcome was in the Pi's database at some point |
| `ProtocolSafety.TerminalAgreement` | pi_firmware/ems_controller.py:1772-1788 | cloud completed implies the Pi's durable row became COMPLETED with a positive token; cloud failed implies it became FAILED or named no wing; never opposite outcomes |
| `CommandMeaning.CompletedMeansDone` | pi_firmware/ems_controller.py:1208-1425 | over every run: a cloud row that was completed carries VERIFIED_ON or GPIO_CONFIRMED for set_active_slot, and VERIFIED_OFF or GPIO_CONFIRMED for off_slot and off_all, and so does the Pi's durable row |
| `CommandMeaning.CloudSpeaks` | backend/main.py:1953-1976 | a delivery offers the row's own command, wing, value, sequence number and expiry, in the new attempt; an ACK is answered with the verdict on the row as it was; nothing else is said |
| `ProtocolSafety.AckedSoftwareWasCompleted` | pi_firmware/ems_controller.py:1144-1178 | a software command is acked only after it was completed |
| `EndToEnd.ProjectsToCloudRun` | backend/main.py:1884-2157 | every protocol run is, on the cloud's side, a run of cloud transactions |
| `EndToEnd.NothingIsBuried` | pi_firmware/ems_controller.py:1144-1178 | no step of a protocol run acknowledges a software command while it is failed or expired |
| `EndToEnd.ScheduleIsOneAcceptedBatch` | backend/energy_api/day_allocation.py:145-222 | end to end the schedule is the initial one or one batch that was completed in full, and none newer was |
| `EndToEnd.NewestCompletedSetDaysWins` | backend/command_reliability.py:25-36 | end to end, with manual set_days only, the newest completed one determines each wing's target |
| `ProtocolExample.OffAllIsCarriedOut` | pi_firmware/ems_controller.py:1208-1425 | a run exists in which an off_all is queued, delivered, claimed once, completed with VERIFIED_OFF, acked in the cloud and marked acknowledged on the Pi |
| `RelayTrace.SummaryIsFaithful` | pi_firmware/gpio_manager.py:580-789 | the running summary carried by the manager says what the trace says |
| `RelayTrace.LawfulIsExclusive` | pi_firmware/gpio_manager.py:600-789 | a lawful trace leaves at most one relay energised |
| `RelayTrace.LawfulAtEveryInstant` | pi_firmware/gpio_manager.py:600-703 | at every instant of a lawful trace at most one relay is energised, and every take-over comes after the interlock delay and, with feedback, after an OFF reading begun after it |
| `RelayTrace.DeadtimeExactly` | pi_firmware/gpio_manager.py:600-703 | at a switch-on every other wing that was switched off has been off for the interlock delay exactly when each wing not named by active_slot had been off that long |
| `RelayTrace.NoDeadtimeAfterDeactivation` | pi_firmware/gpio_manager.py:828-860 | on, deactivated and another wing on one microsecond later is allowed |
| `GpioManager.GpioManager.EveryInstant` | pi_firmware/gpio_manager.py:580-789 | the same of the manager's own past, whose last state is that of the relays |
| `GpioManager.GpioManager.constructor` | pi_firmware/gpio_manager.py:94-160 | a new manager has every relay off, also when initialisation failed |
| `GpioManager.GpioManager.Sampled` | pi_firmware/gpio_manager.py:254-274 | a value is returned only if all samples, which are the last inputs read, agreed over at least 50 ms with no gap above 5 ms and before the deadline; none only for the deadline, an unreadable or a differing input, or a gap above 5 ms; at most 50 rounds |
| `GpioManager.GpioManager.ReadFeedbackRaw` | pi_firmware/gpio_manager.py:237-274 | the reading that enters the trace is the qualified one, of the inputs just read; an inconclusive one has its reason |
| `GpioManager.GpioManager.VerifySlot` | pi_firmware/gpio_manager.py:280-333 | the token says of the command and the reading what each token means, in both directions; the display follows; an unwatched wing is not read |
| `GpioManager.GpioManager.DeenergizeAll` | pi_firmware/gpio_manager.py:172-179 | every relay is off afterwards |
| `GpioManager.GpioManager.Await` | pi_firmware/gpio_manager.py:627-652 | succeeds only on an agreeing reading begun in and judged within the 2000 ms budget, fails only when the budget is spent and no reading but perhaps the last one agreed; at most 42 rounds |
| `GpioManager.GpioManager.Requalify` | pi_firmware/gpio_manager.py:669-691 | lets the switch pass only on a fresh OFF reading; fails only on a fresh ON reading, or when the budget is spent and no reading was conclusive; at most 42 rounds |
| `GpioManager.GpioManager.Break` | pi_firmware/gpio_manager.py:600-652 | the wing is switched off and, if watched, read OFF; it fails exactly into FAULT with every relay off, and only because no reading within the budget showed it open |
| `GpioManager.GpioManager.Close` | pi_firmware/gpio_manager.py:693-751 | an unwatched wing is closed in every case, a watched one unless no reading within the budget showed it closed |
| `GpioManager.GpioManager.ReleaseOther` | pi_firmware/gpio_manager.py:600-691 | the other wing is off and isolated for the take-over, or all relays are off in FAULT because it never opened, was read ON after the deadtime, or could not be read then |
| `GpioManager.GpioManager.Make` | pi_firmware/gpio_manager.py:693-789 | the target alone is on, active and positively verified, always so when it is unwatched; or all relays are off in FAULT because a watched target was never read closed within the budget |
| `GpioManager.GpioManager.TransitionSlot` | pi_firmware/gpio_manager.py:580-789 | past its guards it ends with the target alone energised, active and verified, or with every relay off in FAULT and the token of the reason, which the trace bears out: a watched wing taken over from did not open or reclosed, or the watched target did not close; at most 126 readings |
| `GpioManager.GpioManager.DeactivateSlot` | pi_firmware/gpio_manager.py:795-892 | the wing is off and, if watched, was read OFF, always so when it is unwatched; or every relay is off in FAULT because no reading within the budget showed it open; at most 42 rounds |
| `GpioManager.GpioManager.SwitchOnAfterDeactivation` | pi_firmware/gpio_manager.py:795-892 | after a deactivation another wing may be switched on at once, naming no wing it takes over from; without feedback nothing comes between the two writes |
| `GpioManager.GpioManager.Observe` | pi_firmware/gpio_manager.py:918-962 | an inconclusive reading is retaken, and remains so only when the budget is spent without a conclusive one; at most 42 rounds |
| `GpioManager.GpioManager.MonitorWing` | pi_firmware/gpio_manager.py:918-1008 | one wing: quiet when it was read as commanded; otherwise FAULT with the token of what was read, and the pass ends exactly for an inconclusive reading |
| `GpioManager.GpioManager.MonitorPass` | pi_firmware/gpio_manager.py:898-1013 | a pass that leaves the system out of FAULT read every watched wing in its commanded state, overlooked no reading of the opposite one, and moved no relay; one that ends in FAULT has every relay off and read a wing in the opposite state, or could not read it within the budget, and then reads no further |
| `GpioManager.GpioManager.ReadAll` | pi_firmware/gpio_manager.py:368-391 | a complete attempt has a qualified reading of every watched wing; an incomplete one ends with a reading that qualified nothing, for a reason |
| `GpioManager.GpioManager.StillShows` | pi_firmware/gpio_manager.py:378-391 | the second look passes exactly when the inputs just read, one per watched wing, show the readings of the snapshot |
| `GpioManager.GpioManager.PollRound` | pi_firmware/gpio_manager.py:365-396 | a round gives a snapshot exactly when the attempt was complete, the second look saw the same, and the deadline was not reached |
| `GpioManager.GpioManager.Snapshot` | pi_firmware/gpio_manager.py:358-400 | a snapshot is complete, confirmed by the last inputs read and taken before the deadline; without one the deadline has passed and no attempt before was any good; bounded rounds |
| `GpioManager.GpioManager.CheckAgreement` | pi_firmware/gpio_manager.py:400-495 | passes only with at most one relay on and every watched wing agreeing with its relay; two relays or contactors are refused with the readings shown, a disagreeing wing with the first one blamed, the deadline with nothing said |
| `GpioManager.GpioManager.ReconcileHardwareState` | pi_firmware/gpio_manager.py:335-574 | success means active_slot names exactly the energised relay, every watched wing was just read in agreement within the 2000 ms budget, and the published states say so; failure means every relay off in FAULT, for two relays, a contradicting reading, or a deadline before which no attempt was any good, and of a watched wing nothing is said but what was just read |
| `EmsController.ReachableIsSafe` | pi_firmware/ems_controller.py:1208-1425 | at any time of the controller: no command claimed twice or after expiry, and a completed hardware row stands for a verified completion on the Pi |
| `EmsController.EmsController.AcceptCloudCommand` | pi_firmware/ems_controller.py:1208-1263 | a new, live command for a wing enters exactly once, as ACTIVATE for set_active_slot, DEACTIVATE for off_slot and DEACTIVATE_ALL for off_all, and never outlives the cloud expiry or five minutes; the messages sent are exactly the two FAILED ones for no wing, and EXPIRED; a step of the protocol |
| `EmsController.EmsController.RunSoftwareCommand` | pi_firmware/ems_controller.py:1120-1178 | keeps step with the protocol: EXECUTING first, then, only if the cloud took it, COMPLETED with the command's own result exactly for a supported command whose effect is in place, else FAILED, each with the attempt; ACKED only after an accepted COMPLETED, and a restart or reboot is requested only when that was accepted too |
| `EmsController.EmsController.ProcessOneCommand` | pi_firmware/ems_controller.py:1269-1424 | the row after the pass, exactly, for every pattern of writes that took effect: refused rows FAILED without touching a relay; carried out ones COMPLETED exactly when no FAULT came up, the relays are there and an off_all was over wings of one kind; FAULT only for feedback that failed; a COMPLETED row has the relays where the cloud's own command asked; all of it protocol steps |
| `EmsController.EmsController.ProcessClaimed` | pi_firmware/ems_controller.py:1285-1424 | the same for the claimed command |
| `EmsController.EmsController.Operate` | pi_firmware/ems_controller.py:1320-1352 | success exactly when no FAULT came up, the relays the command needs are there, and an off_all is over uniformly watched wings; then the relays are where the command wanted them and the token is one the protocol allows; a FAULT has a feedback failure as its reason |
| `EmsController.EmsController.DeactivateEvery` | pi_firmware/ems_controller.py:1644-1661 | every wing is tried; afterwards every relay is off; success exactly without FAULT and with relays, each wing then carrying its own positive OFF token; a FAULT has its reason in the trace |
| `EmsController.EmsController.AggregateOffAll` | pi_firmware/ems_controller.py:1617-1642 | a token is returned exactly when the wings in use all carry VERIFIED_OFF or all carry GPIO_CONFIRMED |
| `EmsController.EmsController.ExecuteLocalTransition` | pi_firmware/ems_controller.py:1531-1559 | runs exactly from READY or CLOUD_OFFLINE, with a stored state and no ON under an invalid capability state; a run succeeds exactly when it does not end in FAULT for failed feedback, and then the wing is where it was wanted and the prior state is restored |
| `EmsController.EmsController.Monitor` | pi_firmware/gpio_manager.py:898-1013 | a monitor pass between main-loop passes keeps step with the protocol and raises FAULT only for failed feedback |
| `EmsController.EmsController.ReportExecuted` | pi_firmware/ems_controller.py:712-714 | keeps step with the protocol: the request carries the last executed sequence number and exactly the commands begun last |
| `EmsController.EmsController.CleanUp` | pi_firmware/ems_controller.py:1835-1840 | the hourly cleanup keeps step with the protocol; when storage can be written it deletes exactly one call's share of what the retention policy disposes of, else nothing |
| `EmsController.EmsController.NextUnacked` | pi_firmware/ems_controller.py:1778 | the pending final row that was completed first, or none when nothing is pending |
| `EmsController.EmsController.FlushRow` | pi_firmware/ems_controller.py:1779-1804 | keeps step with the protocol and sends exactly the row's report, and ACKED after a 200; the row is acknowledged exactly when both messages were accepted, rejected exactly on a conflict, and otherwise left pending; no status and no other row changes |
| `EmsController.ReportsTheRow` | pi_firmware/ems_controller.py:1779-1804 | the two messages carry the row's status or ACKED, its token and the attempt it was delivered in |
| `EmsController.EmsController.RecoverOne` | pi_firmware/ems_controller.py:1686-1741 | an interrupted command becomes COMPLETED when the hardware already is where it wanted it and the writes take effect, and otherwise UNKNOWN_AFTER_REBOOT; other rows stay |
| `EmsController.EmsController.RecoverEach` | pi_firmware/ems_controller.py:1686-1746 | the same for the whole list, each command by where the hardware is, and the protocol is back in its idle phase |
| `EmsController.EmsController.Boot` | pi_firmware/ems_controller.py:238-286 | after a successful boot no relay is on, no wing is active, every watched wing was just read OFF, in two reconciliations when commands were interrupted; when the writes take effect every interrupted deactivation is COMPLETED with VERIFIED_OFF and every ACTIVATE is not; a failed boot ends in FAULT, for missing hardware, a wing read ON or a spent budget, and recovers nothing |
| `AllocationPolicy.FindVerifiedActive` | pi_firmware/energy/allocation.py:28-46 | one ON with every other OFF is that wing, all OFF is nothing, two ON is a fault whatever else, anything else is unverified |
| `AllocationPolicy.AllocationPolicy.AdvanceToNext` | pi_firmware/energy/allocation.py:222-239 | the while loop takes the same decision as skipping wing by wing |
| `AllocationPolicy.AllocationPolicy.HoldWing` | pi_firmware/energy/allocation.py:195-220 | the new state and decision are the specified ones on the held wing |
| `AllocationPolicy.AllocationPolicy.EvaluateNow` | pi_firmware/energy/allocation.py:134-220 | the new state and decision are the specified function of state, configuration and measurements |
| `AllocationPolicy.AllocationPolicy.ReportExecution` | pi_firmware/energy/allocation.py:246-264 | the new state is the specified function of the outcome |
| `AllocationLaws.ClearExactly` | pi_firmware/energy/allocation.py:115-131 | nothing blocks exactly without a fault, with M1 enabled, online and seen within 60 s, the contactors read, at most one closed, and no attribution fault; otherwise the reason is the first of these that fails |
| `AllocationLaws.EligibleExactly` | pi_firmware/energy/allocation.py:95-113 | when a wing may be allocated, which target it has, and why not otherwise |
| `AllocationLaws.HoldsExactly` | pi_firmware/energy/allocation.py:195-214 | an evaluation counts towards the hold window exactly when enabled and clear, the wing alone is on, is attributed and generates its target plus tolerance |
| `AllocationLaws.ActsOnlyWhenClear` | pi_firmware/energy/allocation.py:134-239 | an action needs all of that clearance, the policy's own wing on and, for ACTIVATE, an eligible wing |
| `AllocationLaws.NewDayIsFresh` | pi_firmware/energy/allocation.py:134-141 | a new operating day keeps nothing of the one before |
| `AllocationLaws.AdvanceExactly` | pi_firmware/energy/allocation.py:222-239 | moving on skips exactly the ineligible wings in order, activates the next eligible one, and at the end switches the last wing off or is done |
| `AllocationLaws.DayBegins` | pi_firmware/energy/allocation.py:193-197 | a fresh day begins with the first eligible wing, or is paused when a wing is on |
| `AllocationLaws.NotHeld` | pi_firmware/energy/allocation.py:198-212 | what becomes of an allocated wing that is not held: paused without a target, the timer cleared, or below the threshold back to RUNNING |
| `AllocationLaws.Held` | pi_firmware/energy/allocation.py:213-220 | a held wing's timer starts, runs on, or completes the wing and moves on |
| `AllocationLaws.MismatchPauses` | pi_firmware/energy/allocation.py:171-192 | a wing that is not the policy's own pauses the day, with the reason of a restart or of an intervention |
| `AllocationLaws.DisabledPauses` | pi_firmware/energy/allocation.py:142-145 | disabling pauses a running day and leaves any other alone |
| `AllocationLaws.BlockWaits` | pi_firmware/energy/allocation.py:148-156 | a block is remembered with the status to come back to, and clears the timer |
| `AllocationLaws.Unblocks` | pi_firmware/energy/allocation.py:158-167 | leaving BLOCKED never acts: back where the day was, from before its hold window, or paused when another wing is on |
| `AllocationLaws.FinalizesExactly` | pi_firmware/energy/allocation.py:177-188 | the last wing is switched off at most three times; nothing on completes the day, another wing pauses it |
| `AllocationLaws.ReportExactly` | pi_firmware/energy/allocation.py:246-264 | each outcome of each action, by whether its wing alone, or nothing, is on |
| `AllocationLaws.FullWindowCompletes` | pi_firmware/energy/allocation.py:203-220 | over every run: a wing held at every evaluation of a full window is completed at its end |
| `AllocationDay.StepKeeps` | pi_firmware/energy/allocation.py:134-264 | a pass keeps the books, never moves back in the sequence, and PAUSED and COMPLETED stand still |
| `AllocationDay.NewDayIsBooked` | pi_firmware/energy/allocation.py:134-141 | when a new operating day begins the books are right in any state, so the results on a day hold for every day that begins in the run |
| `AllocationDay.DayIsBookedAndBounded` | pi_firmware/energy/allocation.py:222-239 | within a day completed and skipped are, in order, exactly the first `index` positions, and at most three DEACTIVATEs are decided |
| `AllocationDay.EachPositionActivatedOnce` | pi_firmware/energy/allocation.py:222-232 | two ACTIVATEs of a day are for two positions, the later one further on, each naming its position's wing |
| `AllocationDay.StaysClosed` | pi_firmware/energy/allocation.py:146-147 | PAUSED and COMPLETED are never left within the day and decide nothing |
| `AllocationDay.CompletedMeansAllOff` | pi_firmware/energy/allocation.py:234-261 | COMPLETED is entered only when nothing is verified on |
| `AllocationDay.ActsOnlyWhenSafe` | pi_firmware/energy/allocation.py:142-197 | an action is decided only when enabled, unblocked, not in the evaluation leaving BLOCKED, and with the policy's own wing verified |
| `AllocationDay.TimerStart` | pi_firmware/energy/allocation.py:203-214 | a running timer names a start in the run from which every evaluation held |
| `AllocationDay.CompletionWasHeld` | pi_firmware/energy/allocation.py:203-220 | in a process that inherits no timer a wing is completed only after a full hold window |
| `AllocationDay.InheritedTimerCompletes` | pi_firmware/energy/allocation.py:50-58 | with an inherited timer some run completes a wing at its first evaluation |
| `AllocationDay.HoldWindowExactly` | pi_firmware/energy/allocation.py:50-220 | the hold window holds in every run exactly when no running timer was inherited |
| `Calendar.BoundsFail` | backend/energy_api/day_allocation.py:29-43 | period_bounds fails exactly for a reset day outside 1..28 or a period reaching outside years 1..9999 |
| `Calendar.OrdinalsOrder` | backend/energy_api/day_allocation.py:46-53 | differences of dates order them as year, month and day do |
| `Calendar.Gregorian` | backend/energy_api/day_allocation.py:46-53 | the dates are those of the Gregorian calendar: the lengths of the twelve months and the leap years |
| `Calendar.Epoch` | backend/energy_api/day_allocation.py:46-53 | and its ordinals are those of Python's dates, at two known days |
| `Calendar.PeriodContains` | backend/energy_api/day_allocation.py:29-53 | start <= date < end, the length is the start month's day count, the index lies in the cycle |
| `Calendar.PeriodsPartition` | pi_firmware/energy/day_based.py:16-31 | exactly the dates between the bounds have these bounds, and the next period starts at `end` |
| `Calendar.IndexSteps` | pi_firmware/energy/day_based.py:34-36 | from day to day the index steps by one, or the cycle was full and the next day is 1 |
| `Calendar.PeriodIsNamedByItsStart` | pi_firmware/energy/energy_ledger.py:20-26 | the ledger's period is the month of the start, after clamping the reset day |
| `Calendar.NamedByTheNearest` | pi_firmware/energy/energy_ledger.py:20-26 | a reset day out of range counts as the nearest one in range |
| `Calendar.SameNameSamePeriod` | pi_firmware/energy/energy_ledger.py:20-26 | two dates share a ledger period exactly when they share a reset period |
| `DayAllocation.Rank` | backend/energy_api/day_allocation.py:77 | the ranking is a permutation ordered by falling fraction, ties in the given order |
| `DayAllocation.SharesSum` | backend/energy_api/day_allocation.py:74 | the exact shares sum to the cycle |
| `DayAllocation.ShareExactly` | backend/energy_api/day_allocation.py:61-74 | a wing's share is to the cycle as its units are to all units, written as a whole or a decimal number, or absent for none |
| `DayAllocation.RemainderInRange` | backend/energy_api/day_allocation.py:75-79 | the remainder is what the fractions add up to, so every rank used exists |
| `DayAllocation.ExtrasHaveFractions` | backend/energy_api/day_allocation.py:76-79 | no wing with a whole share is among those that get a day more |
| `DayAllocation.HandOut` | backend/energy_api/day_allocation.py:78-79 | the loop adds one day to exactly the first `remainder` ranked wings |
| `DayAllocation.UnitsToDays` | backend/energy_api/day_allocation.py:56-80 | fails exactly on bad input, naming the first bad wing and what is wrong with it; otherwise the days sum to the cycle, each wing has its floor or one more, larger fractions first, none to whole shares |
| `DayAllocation.DaysFromUnits` | backend/energy_api/day_allocation.py:116-119 | within a cycle of at most 31 days the range check never fails, and no wing exceeds the cycle |
| `DayAllocation.TakeDays` | backend/energy_api/day_allocation.py:114-115 | a DAYS request is accepted exactly when each count is a whole number in 0..31 and they sum to the cycle; otherwise the first bad wing, or the sum, is blamed |
| `DayAllocation.ValuesTaken` | backend/energy_api/day_allocation.py:56-126 | which JSON values count as units, as days, and as nothing for a disabled wing |
| `DayAllocation.ResolveDays` | backend/energy_api/day_allocation.py:105-126 | exactly the enabled wings get days, 0..31 each, filling the cycle; refusal conditions and errors are exact, down to a JSON false for a disabled wing and the first wing to blame |
| `DaySchedule.ScheduledWing` | pi_firmware/energy/day_based.py:39-50 | the cursor walk finds the wing of the schedule written out day by day |
| `DaySchedule.UsageOf` | pi_firmware/energy/day_based.py:64-80 | the closed form of each wing is the number of its days up to the index |
| `DaySchedule.ScheduledUsage` | pi_firmware/energy/day_based.py:53-80 | the same for a date and reset day, failing exactly when period_bounds does |
| `DaySchedule.UsageSums` | pi_firmware/energy/day_based.py:53-80 | the usages sum to the index, capped at the scheduled days |
| `DaySchedule.FullCycle` | pi_firmware/energy/day_based.py:39-50 | when the days sum to the cycle every cycle day has one wing and each wing gets exactly its days |
| `DaySchedule.ResolvedFillsCycle` | backend/energy_api/day_allocation.py:83-126 | what resolve_days returns does so for the cycle it was resolved for |
| `FirmwareSlots.TrialIsOneStart` | pi_firmware/ota_manager.py:335-357 | from an activation until it is confirmed, rolled back or followed by another the half stays active and unwritten, is started at most once, and a rollback restores the half the activation named |
| `FirmwareSlots.RollbackReturnsExactly` | pi_firmware/ota_manager.py:335-357 | every rollback undoes an activation; what is staged meanwhile goes into the half it returns to, which is as before the activation exactly when nothing was staged, else it holds an image written meanwhile |
| `FirmwareSlots.GuardedRollbackRestores` | pi_firmware/ota_manager.py:335-357 | when staging and activation happen only outside trials, every rollback restores the half and the release active before, which were not on trial |
| `FirmwareSlots.Firmware.Stage` | pi_firmware/ota_manager.py:172-200 | the active half is never touched; outside a trial what is staged targets the other half and remembers the active one; refused exactly for a bad signature or damaged files |
| `FirmwareSlots.Firmware.Remove` | pi_firmware/ota_manager.py:265-266 | removing the old directory may stop with a remnant, of the inactive half only |
| `FirmwareSlots.Firmware.WriteSlot` | pi_firmware/ota_manager.py:245-275 | a write that does not take effect, the removal of the old directory included, leaves nothing staged half-way; refused exactly for damaged files; five writes suffice |
| `FirmwareSlots.Firmware.ActivateStaged` | pi_firmware/ota_manager.py:203-221 | in any state: flips to the staged half with the one it names as previous; while ACTIVATING it reports success and changes nothing; broken between its two writes it leaves ACTIVATING behind |
| `FirmwareSlots.ActivationCutShort` | pi_firmware/ota_manager.py:207-219 | power lost between the two writes; the next activation reports success and nothing was activated |
| `FirmwareSlots.Firmware.RecordFailure` | pi_firmware/ota_manager.py:156-163 | one failure more of that version and then FAILED, exactly as far as the writes take effect |
| `FirmwareSlots.Firmware.RollBack` | pi_firmware/ota_manager.py:347-355 | the previous half is restored by the first write, the failure is recorded by the second and FAILED by the third, exactly as far as they take effect |
| `FirmwareSlots.Firmware.FailHealth` | pi_firmware/ota_manager.py:305-321 | acts only on a trial, returns to the half active before it and records the failure, exactly as far as the writes take effect |
| `FirmwareSlots.Firmware.ConfirmBoot` | pi_firmware/ota_manager.py:324-332 | ends the trial exactly when its first write takes effect and keeps the active half |
| `FirmwareSlots.Firmware.RollbackIfUnconfirmed` | pi_firmware/ota_manager.py:335-357 | comes back only when the active half may be started: the first start of a trial, marked as started and HEALTH_CHECK, or, from the second start on, after the roll-back with a recorded failure |
| `FirmwareSlots.Firmware.Boot` | pi_firmware/ota_boot.sh:1-33 | what is started is the active half, and a half on trial for its only time; started exactly when there is an image and the writes took effect; a second start of a trial restores the other half |
| `FirmwareSlots.Firmware.RunOta` | pi_firmware/ems_controller.py:851-883 | the release goes on trial in the other half, or is refused or broken off, which costs one recorded failure; a bad signature is refused, a good release goes on trial when seven writes take effect; outside a trial the guard's order is kept, and during one every change breaks it; at most three failures per version |
| `FirmwareControl.OtaController.AfterSync` | pi_firmware/ems_controller.py:1068-1081 | the flag is set unless the trial is unhealthy; nothing is then on trial exactly when there was no trial or the confirmation took effect; an unhealthy trial is rolled back with its failure recorded, and the process ends when all four writes took effect |
| `FirmwareControl.OtaController.Consider` | pi_firmware/ems_controller.py:810-839 | a release is requested exactly with the flag set, no restart pending, for another version with fewer than three failures, and not for an operation that is under way |
| `FirmwareControl.OtaController.RunRequested` | pi_firmware/ems_controller.py:851-883 | staging and activation stay outside trials in a process whose confirmation took effect, and not in one whose confirmation did not |
| `FirmwareControl.ConfirmationLost` | pi_firmware/ems_controller.py:1077-1078 | the confirmation raises: flag set, release still on trial, controller running |
| `FirmwareControl.ChainedTrial` | pi_firmware/ems_controller.py:836-868 | then the next release is activated over the half to return to, and itself returns to the unconfirmed release |
| `FirmwareControl.HealthyRolledBack` | pi_firmware/ota_manager.py:335-357 | or the next start rolls the healthy release back |
| `FirmwareSlots.UntriedReleaseStarts` | pi_firmware/ems-ota-stage.py:12-21 | a release staged during a trial is what the rollback starts, as confirmed and never tried |
| `FirmwareSlots.StagedDuringTrial` | pi_firmware/ems-ota-stage.py:12-21 | after an interrupted rollback, what was staged during the trial can be activated with the failed release as the one to return to |
| `StateFile.LoadState` | pi_firmware/state.py:279-374 | the first of STATE, BACKUP and RECOVERY that verifies |
| `StateFile.LoadsTheFirst` | pi_firmware/state.py:279-374 | STATE is restored if it verifies, else BACKUP, else RECOVERY, and nothing exactly when none does |
| `StateFile.SaveLeaves` | pi_firmware/state.py:392-431 | what each save leaves in STATE and BACKUP, by the point where it stopped; RECOVERY is never touched |
| `StateFile.DamageFallsBack` | pi_firmware/state.py:279-431 | after two stored saves a damaged STATE gives back the document before the last |
| `StateFile.SaveIsSafe` | pi_firmware/state.py:392-431 | wherever a save stops, the previous document loads, or the new one once it is in place, if STATE verifies or is absent |
| `StateFile.WhatMayComeBack` | pi_firmware/state.py:380-462 | after any run of saves of which none was stored, the documents a crash may bring back are the last stored one and those whose save failed only at the directory fsync |
| `StateFile.LastOrNewestExactly` | pi_firmware/state.py:380-462 | a crash at any point brings back the last stored document or the one being written exactly when no earlier save of the run failed at its directory fsync |
| `StateFile.NothingOlder` | pi_firmware/state.py:380-462 | what comes back is never older than the last stored document |
| `StateFile.NeverNothing` | pi_firmware/state.py:411-424 | a save always leaves something loadable exactly when STATE is not corrupt or RECOVERY is good |
| `StateFile.PiStateManager.FlushToDisk` | pi_firmware/state.py:380-462 | success makes the new document the only one that can come back; a failed save joins the run of saves since |
| `StateFile.PiStateManager.CrashSafety` | pi_firmware/state.py:380-462 | the two results above at every state of the manager |
| `StateFile.PiStateManager.PowerFailure` | pi_firmware/state.py:279-374 | what is restored is the last stored document or one whose save failed at its fsync, the last stored or newest if no earlier one did, and never older than the last stored |
| `StateFile.PiStateManager.Restart` | pi_firmware/state.py:279-374 | a process restart loads the current directory, never older than the last stored document, and does not change what may come back |
| `StateFile.FailedSaveReappears` | pi_firmware/state.py:411-459 | from every state of the manager, two failed saves and a crash restore neither the last stored nor the newest document |
| `MeterBaselines.AcceptedIsGained` | pi_firmware/energy/energy_state.py:52-75 | over an event-free run every delta is non-negative and the sum is the register's gain, or more by at most 0.0005 kWh per backward reading |
| `MeterBaselines.JudgeExactly` | pi_firmware/energy/energy_state.py:52-75 | a reading is a delta exactly when it is of the same meter, not backwards, not after a gap and plausible; otherwise the event of the first of these it breaks, in the source's numbers |
| `MeterBaselines.EventFreeExactly` | pi_firmware/energy/energy_state.py:52-75 | a run has no event exactly when each reading is regular after the one before |
| `MeterBaselines.ForwardIsExact` | pi_firmware/energy/energy_state.py:52-75 | without backward readings the sum is the gain |
| `MeterBaselines.MeterBaselines.Accept` | pi_firmware/energy/energy_state.py:52-75 | the reading becomes the baseline in every case, other meters stay, and the outcome is the run's: a delta or an event, never both |

## Left out

- Idempotency keys of `queue_command`, and rows without an expiry: fresh ids, a fresh batch id and a 300 s life are assumed, as the inserts write them.
- `archive_terminal_commands` and administrator or manual writes to `slot_configs` besides `set_days`.
- That every command finally becomes terminal in the cloud: a repeated delivery does not refresh `cloud_attempt`, so a stale attempt may keep an ACK from being applied.
- The pacing and backoff of `flush_acks`, and `ack_attempts`.
- What `reset_days` stores, and the exit or marker file by which a requested restart or reboot is carried out.
- The 503 reply of a sync whose energy part failed, and every part of the sync reply besides the command.
- `now` of a claim is read at the claim; the source reads it just before taking the lock.
- FAULT across threads: the methods run one at a time. A FAULT that the controller sets because a save failed does not drop relays, and the contracts say so.
- The pace of polling: a wait loop sleeps for the source's interval or longer; the contracts bound the number of readings and the budget, not the interval.
- Failing relay writes and exceptions in the middle of a transition; the `gpio_output_state` display value.
- Click counters, usage days and other statistics that execution updates on the way.
- Event texts of the allocation policy, `apply_config`, `persist` and `meter_manager.py`, which is taken to pass evaluations and outcomes through unchanged.
- Rounding: energies, shares, tolerances and times of the policy are real numbers where the source uses floats. The floats' not-a-number and infinities do not occur.
- `DayBasedStrategy`, the calendar strategy that acts on the schedule.
- `verify_manifest`, `firmware_release.verify_release` and `release_health`: their verdicts are parameters; the maintenance window and the download.
- Firmware writes that raise after they took effect (a directory fsync error): in the model a write that raises has not taken effect. An activation that raises in this way also leaves the flag set during a trial.
- A disk that reorders renames: the state file may fall back to any earlier directory since the last fsync, in order.
- SHA-256, Ed25519, JSON, SQL, HTTP and threads as such.
