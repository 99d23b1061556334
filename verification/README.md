# Verified model of the snitchwatch scanner and bridge protocols

A Dafny 4.11 model of the parts of snitchwatch whose correctness is a claim about every interleaving,
every run or every input. `dafny verify dfyconfig.toml` checks all of it.

* **The privileged scanner's watchdog** (`WatchdogModel`, `WatchdogInvariant`, `WatchdogTheorems`,
  `WatchdogRegistry`). Captures, the watchdog and the exiting main thread share the locked record
  `{phase, in_flight, pid}` and the lock-free flag `EXPIRING`. Every critical section is one step of a
  labelled transition system; `fork`, the child's check of its fork-time copy of `EXPIRING` and `exec`
  are separate steps; bounded waits may time out at any moment; the operating system may reuse any
  reaped pid at once, and processes may move between process groups. Any number of capture threads is
  allowed, as the lock allows them. The same critical sections are the methods of the class `Registry`,
  each proved to be the corresponding step of the transition system.
* **Containment** (`ProcSnapshot`, `SweepLoop`, `PidfdKill`, `ProcessTree`). The `/proc` walk and the
  kill loop as loops, the pidfd race as a transition system, and a process tree with forks, exits,
  reparenting to the nearest subreaper, reaps and pid reuse, over which a `complete` sweep is final.
* **The findings store** (`FindingsStore`, `FindingsHistory`). The `findings` table as a class whose
  `Reconcile` is proved against a row-by-row specification, and what the table means after any history.
* **Export jobs** (`ExportModel`, `ExportTheorems`, `ExportAdmission`, `ExportService`). Supervisors and workers that share a
  permit and a session's admission by reference, sessions with one active run and one delivery slot,
  timeouts, cancellation and `stop`.
* **The release tarball** (`PosixPaths`, `ReleaseLayout`, `Ustar`, `UstarLayout`, `Gzip`, `SortedStrings`,
  `ReleaseTarball`, `ReleaseTheorems`, `ReleaseArtifact`, `ReleaseMeaning`). `pack` and `verify` down to the bytes of the
  ustar headers ("ustar Interchange Format" of POSIX.1) and of the gzip member (section 2.2 of RFC 1952),
  and the exact agreement of the two.
* **Smaller protocols** (`Broker`, `BusyNames`, `PauseAnnounce`, `RulesDelta`): the broker's admission
  and idle shutdown and busy-name claims, as classes tied call by call to a run system, change-then-announce
  of the filtering pause, and the rule-list delta.

`Filters` says what it means to keep some elements of a list, each occurrence in order; the loops and
specification functions that filter are all proved against it.

Transition systems are deterministic in their labels, so a theorem over all label sequences is a theorem
over all runs. Where a property fails, a lemma gives the failing case and another says exactly when the
code meets it:

* `Running -> Exiting` does not set `EXPIRING`, so with captures on other threads an exec can follow the
  exit: `ExecFollowsExit` is such a run, and `ExecAfterExitIffPending` says exactly when one exists. With
  captures on the exiting thread none does: `MainThreadExitIsFinal`.
* A group kill reaches whatever is in the primitive's group. A process of another lineage that moves into
  that group dies with it (`JoinerDiesWithTheGroup`). `GroupKillsStayInLineage` says exactly whom a kill
  hits: the live members of the group the registered primitive created itself, never a recycled group.
* The store accepts any scan id. Rows stay ordered exactly when a scan is later than every open row's last
  sighting (`OrderNeedsLaterScan`); two scans that reconcile in the opposite order of their ids break a
  row (`OutOfOrderScansBreakRows`).
* "The last announcement always matches the last change" (`relays.rs:23-28`) holds for the pause record,
  but the message carries an end on the wall clock. Once nothing is owed, the last broadcast is the current
  state exactly when no pause is recorded or the recorded one stands as it stood at the broadcast's read:
  over in both, or running with the same setback of the wall clock (`BroadcastIsCurrentIffSameStanding`).
  It fails after a stepped clock (`WallStepMakesAnnouncementStale`) and when a pause that was running at
  the read has lapsed and its tick is still to come (`LapseOutdatesAnnouncement`); a pause that had lapsed
  before the read does no harm (`LapseBeforeTheReadIsHarmless`).
* `is_license` normalises the path it is given, so `verify` accepts streams that no staged directory packs
  to (`DoubledSlashIsAccepted`, `OddStagePacks`). An accepted stream comes from a directory exactly when
  all its paths are normal (`PackedFromDirectoryIffNormal`). Every accepted stream is still the canonical
  serialization of its contents, with exact tables.

## Model

| member | source | states |
|---|---|---|
| WatchdogInvariant.StepKeeps | crates/scanner-privileged/src/command.rs:12-62 | every step of every actor keeps the invariant that ties phase, `EXPIRING`, the slot, the captures' children, pids and groups together |
| WatchdogInvariant.Reachable | crates/scanner-privileged/src/command.rs:12-62 | the invariant holds in every reachable state |
| WatchdogTheorems.NoExecAfterExpiry | crates/scanner-privileged/src/command.rs:57-62 | no primitive forked after the expiry began ever execs, whether the wait for registration cleared or timed out |
| WatchdogTheorems.ExecsExistAtSweep | crates/scanner-privileged/src/command.rs:119-165 | a primitive that execs after the sweep started was already an unreaped child of the scanner, in flight, forked before the expiry |
| WatchdogTheorems.RegisteredPidIsUnreaped | crates/scanner-privileged/src/command.rs:559-572 | a non-zero registered pid names exactly one process, an unreaped primitive of the one registered capture, under arbitrary pid reuse |
| WatchdogTheorems.GroupKillsStayInLineage | crates/scanner-privileged/src/command.rs:302-342 | the watchdog's and the guard's group kill hit exactly the live members of the group that one unreaped primitive created itself; unless a process of another lineage moved into a group before, all of them descend from that primitive |
| WatchdogTheorems.JoinerDiesWithTheGroup | crates/scanner-privileged/src/command.rs:328-342 | a run in which an unrelated process joins the registered group and the guard's kill hits it |
| WatchdogTheorems.SweepsKillBelowTheScanner | crates/scanner-privileged/src/command.rs:149-165 | a signal of the expiry or exit sweep kills exactly one live process below the scanner and changes nothing else |
| WatchdogTheorems.SweepsReachEverything | crates/scanner-privileged/src/command.rs:221-234 | while a sweep runs, every live process below the scanner can be signalled |
| WatchdogTheorems.OneCaptureInTheSlot | crates/scanner-privileged/src/command.rs:521-576 | at most one capture is authorised or registered; `in_flight` and a registered pid never coexist; each is set exactly while such a capture exists, so every exit path frees the slot |
| WatchdogTheorems.ClearWaitSeesEverything | crates/scanner-privileged/src/command.rs:187-192 | if the wait ends with `in_flight` clear, no later step forks or execs a primitive, and every earlier primitive is registered, was killed with its group, or never ran |
| WatchdogTheorems.ExecAfterExitIffPending | crates/scanner-privileged/src/command.rs:221-256 | in `Exiting`, some continuation execs a primitive exactly when another capture was already on its way to one |
| WatchdogTheorems.ExecFollowsExit | crates/scanner-privileged/src/command.rs:235-256 | from every initial state, a run that reaches `Exiting` with a capture pending and then execs its primitive |
| WatchdogTheorems.MainThreadExitIsFinal | crates/scanner-privileged/src/command.rs:221-256 | an exit begun with no capture open is followed by no fork and no exec, and every primitive is already reaped |
| WatchdogTheorems.PhasesMoveForward | crates/scanner-privileged/src/command.rs:12-33 | the phase history of every run is a prefix of Running-Expiring-Expired or Running-Exiting, and `EXPIRING` holds exactly in Expiring and Expired |
| WatchdogTheorems.ExpiryExcludesExit | crates/scanner-privileged/src/command.rs:194-256 | an expiry and an exit sweep never both happen and neither begins twice |
| WatchdogTheorems.OwnGroupKillOrder | crates/scanner-privileged/src/command.rs:101-165 | the own-group kill fires at most once, after the sweep ended or panicked, before any log and before `Expired`; by `Expired` it has fired; an invalid group is never swept nor killed |
| WatchdogTheorems.EveryScheduleCompletes | crates/scanner-privileged/src/command.rs:132-165 | under every schedule, until `Expired` the watchdog always has a step of its own, it takes at most six besides signals and log lines, nobody else can undo its progress, and at `Expired` the own-group kill has fired exactly once for a valid group |
| WatchdogTheorems.ExpiryAlwaysCompletes | crates/scanner-privileged/src/command.rs:101-165 | from every `Expiring` state the watchdog alone reaches `Expired` with exactly one own-group kill, even if every wait times out, the lock is never obtained and the sweep panics |
| WatchdogRegistry.Registry.constructor | crates/scanner-privileged/src/command.rs:41-48 | the initial record is the protocol's initial one |
| WatchdogRegistry.Registry.Authorise | crates/scanner-privileged/src/command.rs:522-532 | authorises exactly while Running and free; a refusal changes nothing |
| WatchdogRegistry.Registry.LateCheck | crates/scanner-privileged/src/command.rs:537-542 | a capture that resumes after the expiry began gives its slot back |
| WatchdogRegistry.Registry.FinishSpawn | crates/scanner-privileged/src/command.rs:559-574 | the slot passes from in flight to the registered pid, or is freed when the spawn failed |
| WatchdogRegistry.Registry.DropGuard | crates/scanner-privileged/src/command.rs:328-342 | under one lock the guard signals the group of its own child and clears the pid, which is the protocol's guard-drop step with its group kill |
| WatchdogRegistry.Registry.EnterExpiry | crates/scanner-privileged/src/command.rs:196-208 | entered exactly from Running, setting phase and flag together |
| WatchdogRegistry.Registry.LeaveExpiry | crates/scanner-privileged/src/command.rs:209-214 | the phase becomes Expired and nothing else changes |
| WatchdogRegistry.Registry.FinishProcess | crates/scanner-privileged/src/command.rs:235-256 | only the leave of a Running scanner sweeps; a leave mid-expiry waits; otherwise nothing |
| WatchdogRegistry.Registry.ActiveGroup | crates/scanner-privileged/src/command.rs:302-326 | the group signalled is the registered one, and none outside an expiry |
| ProcSnapshot.CollectChildren | crates/scanner-privileged/src/containment.rs:92-116 | for every parent, the children table holds exactly the listed entries with that parent, each occurrence in listing order; the first error or the deadline is reported |
| ProcSnapshot.EntriesAre | crates/scanner-privileged/src/containment.rs:95-115 | the processes taken from a listing are its readable entries as listed, each occurrence in order |
| ProcSnapshot.VisitKids | crates/scanner-privileged/src/containment.rs:120-131 | visiting the children of one node keeps what the walk knows and leaves only unvisited work on the stack |
| ProcSnapshot.Walk | crates/scanner-privileged/src/containment.rs:117-132 | the worklist terminates on every parent map, cycles included, and returns the non-dead reachable processes, without repeats, never the root |
| ProcSnapshot.LiveDescendants | crates/scanner-privileged/src/containment.rs:89-133 | a pass is complete exactly when no entry failed and the deadline did not pass, and then lists, for the processes the listing itself shows, the live ones below the root; otherwise the first cause is returned and never reads as "none" |
| ProcSnapshot.LiveListIsExact | crates/scanner-privileged/src/containment.rs:112-132 | with every pid listed once, the list is exactly the non-dead processes reachable from the root |
| SweepLoop.SignalAll | crates/scanner-privileged/src/containment.rs:268-280 | the kills of a pass go to the scan's processes in order, each before the deadline and with a tree of exactly that scan and the root; only the deadline cuts them short; every error is accounted for |
| SweepLoop.ScanPass | crates/scanner-privileged/src/containment.rs:252-283 | one pass scans its own listing, signals only what that found and counts exactly its own errors |
| SweepLoop.KillDescendants | crates/scanner-privileged/src/containment.rs:239-285 | the loop terminates; passes follow each other after 5 ms; `complete` exactly when the last two passes were consecutive complete empty ones, otherwise it ends only at the deadline; the failures are all failed scans and kills, and the first error is the earliest one's |
| SweepLoop.ErrorsCount | crates/scanner-privileged/src/containment.rs:252-283 | the accounts count every failed scan and every failed kill, once |
| SweepLoop.FirstErrorIsEarliest | crates/scanner-privileged/src/containment.rs:252-283 | the error kept is that of the earliest failure |
| ProcessTree.DescendantsNeverEscape | crates/scanner-privileged/src/containment.rs:1-29 | over every run, exactly what was forked at or below the scanner is below it until it is reaped |
| ProcessTree.NoneAliveStays | crates/scanner-privileged/src/containment.rs:1-29 | once no descendant is alive and the scanner forks nothing, none ever is again |
| ProcessTree.SnapshotListsLiveDescendants | crates/scanner-privileged/src/containment.rs:89-133 | over an atomic snapshot a pass lists exactly the live descendants |
| ProcessTree.PassListsLiveDescendants | crates/scanner-privileged/src/containment.rs:89-133 | a complete pass over a listing that shows a whole state is exactly the list of the live descendants |
| ProcessTree.EveryListedProcessIsAdmitted | crates/scanner-privileged/src/containment.rs:268-280 | over an atomic snapshot a pass signals live descendants only, all of them if time is left, and every kill's tree holds that process's own parent, so the parent check admits it |
| ProcessTree.EmptyPassIsFinal | crates/scanner-privileged/src/containment.rs:224-232 | an empty pass over an atomic snapshot leaves no live descendant in that or any later state |
| ProcessTree.CompleteSweepLeavesNothing | crates/scanner-privileged/src/containment.rs:224-285 | a sweep that reports `complete` implies, in every run its passes can have seen, that no descendant is alive at the last pass or later |
| PidfdKill.SignalHitsOnlyTheCheckedProcess | crates/scanner-privileged/src/containment.rs:135-202 | under arbitrary forks, exits, reaps, reparenting and pid reuse, SIGKILL reaches only the process pinned at the open, and only if that process's parent pid was in the tree at the check |
| PidfdKill.OneSignalPerCall | crates/scanner-privileged/src/containment.rs:149-202 | one call signals at most once |
| PidfdKill.SignalsExactlyInTree | crates/scanner-privileged/src/containment.rs:160-190 | after the check the signal follows exactly when the process the pid then names has its parent in the tree |
| PidfdKill.SignalKills | crates/scanner-privileged/src/containment.rs:179-190 | a signal to a live pinned process kills it, and nothing else changes |
| PidfdKill.UndisturbedCallKills | crates/scanner-privileged/src/containment.rs:149-202 | undisturbed, a call on a live process whose parent is in the tree kills it |
| FindingsStore.ScanStore.StartScan | crates/scanner-privileged/src/store.rs:117-124 | scan ids increase and the findings stay as they are |
| FindingsStore.ScanStore.FilterAnomalies | crates/scanner-privileged/src/store.rs:139-142 | exactly the anomalous findings, in order and with repeats |
| FindingsStore.AnomalousPaths | crates/scanner-privileged/src/store.rs:139-142 | the findings reconciled, and their paths, are exactly the anomalous ones |
| FindingsStore.AnomaliesAre | crates/scanner-privileged/src/store.rs:139-142 | the anomalies are the anomalous findings, each occurrence in order |
| FindingsStore.SelectIs | crates/scanner-privileged/src/store.rs:167-198 | new and outstanding findings are those without and with an open row, each occurrence in order |
| FindingsStore.LastDetailIs | crates/scanner-privileged/src/store.rs:169-175 | the detail that stays is that of the last finding for the path |
| FindingsStore.ScanStore.PriorOpen | crates/scanner-privileged/src/store.rs:147-161 | the keys are exactly the paths with an open row |
| FindingsStore.ScanStore.Record | crates/scanner-privileged/src/store.rs:167-199 | every open row seen again is bumped with the last detail, every finding of an unknown path inserts its own row, and both report lists hold each occurrence |
| FindingsStore.ScanStore.Resolve | crates/scanner-privileged/src/store.rs:201-215 | exactly the open rows not seen are resolved by this scan, each path reported once |
| FindingsStore.ScanStore.Reconcile | crates/scanner-privileged/src/store.rs:138-219 | the committed table and report are exactly the specified ones for any scan id and findings; a failed transaction changes nothing |
| FindingsHistory.TableEncodesHistory | crates/scanner-privileged/src/store.rs:138-219 | a path was anomalous in a reconciled scan exactly when some row spans that scan; first <= last < resolved; open rows end at the latest scan, resolved ones at the scan before their resolution |
| FindingsHistory.ResolvedRowsNeverChange | crates/scanner-privileged/src/store.rs:169-215 | rows are never deleted, moved or given another path or first scan, and a resolved row never changes |
| FindingsHistory.OpenAfterIsCurrent | crates/scanner-privileged/src/store.rs:164-215 | the open paths after a reconciliation are exactly the scan's anomalous paths |
| FindingsHistory.InsertedRowsAreFindings | crates/scanner-privileged/src/store.rs:180-192 | each inserted row carries the path, check and detail of its own finding, one row per finding of a path without an open row, in order |
| FindingsHistory.BumpedRow | crates/scanner-privileged/src/store.rs:169-175 | an open row seen again takes the scan and the last detail and keeps everything else |
| FindingsHistory.RowsTellTheirSightings | crates/scanner-privileged/src/store.rs:167-215 | over every history a row keeps the check of its first sighting and carries the detail of its latest |
| FindingsHistory.ReportListsFindings | crates/scanner-privileged/src/store.rs:176-198 | the report lists every finding, with its detail, once per occurrence and in order |
| FindingsHistory.ReportIsSetDifference | crates/scanner-privileged/src/store.rs:139-218 | new, outstanding and resolved are current minus previous, the intersection and previous minus current, with repeats and with failed scans in between |
| FindingsHistory.RunScans | crates/scanner-privileged/src/scan.rs:33-107 | scan after scan on a new store, with failures before or while reconciling: the table is that of a history with increasing ids whose runs are exactly the reconciled scans, it encodes that history, and every report is its run's |
| FindingsHistory.OrderNeedsLaterScan | crates/scanner-privileged/src/store.rs:138-219 | every outcome of a scan keeps all rows ordered exactly when the scan is later than every open row's last sighting |
| FindingsHistory.OutOfOrderScansBreakRows | crates/scanner-privileged/src/store.rs:169-175 | two scans reconciled against their id order leave a row that ends before it begins |
| ExportTheorems.StepKeeps | crates/snitchwatch-bridge-cli/src/analysis_export.rs:161-267 | every step keeps jobs, permits, sessions, generations and listed sessions consistent |
| ExportTheorems.AtMostTwoRuns | crates/snitchwatch-bridge-cli/src/analysis_export.rs:161-254 | at most two supervisors and two workers are ever live, every worker's permit is held, and free plus held permits are two |
| ExportTheorems.PermitReturnsAfterBothHolders | crates/snitchwatch-bridge-cli/src/analysis_export.rs:316-342 | a permit, shared by worker and supervisor, returns only with the supervisor's drop of the last reference, after the worker exited, dropping its own, and was reaped |
| ExportTheorems.WorkerDropIsNeverLast | crates/snitchwatch-bridge-cli/src/analysis_export.rs:217-221 | an exiting worker always leaves the permit and the admission with its supervisor, and changes neither the service nor any session |
| ExportTheorems.AdmissionEndsAfterBothOwners | crates/snitchwatch-bridge-cli/src/analysis_export.rs:196-198 | a session's admission ends only with the very run it admitted, after that run's worker exited and was reaped |
| ExportTheorems.NothingAfterStop | crates/snitchwatch-bridge-cli/src/analysis_export.rs:255-267 | after `stop` no job is admitted and no reply is published in any continuation |
| ExportTheorems.StopClosesEveryRunInFlight | crates/snitchwatch-bridge-cli/src/analysis_export.rs:255-267 | `stop` closes the session of every run in flight and cancels that very run; the session stays closed |
| ExportTheorems.TimeoutCancelsOnlyItsOwnRun | crates/snitchwatch-bridge-cli/src/analysis_export.rs:316-342 | cancelling by request id on a timeout affects only the timed-out generation, its own reply and its own session |
| ExportTheorems.OneReplyPerRun | crates/snitchwatch-bridge/src/analysis_export/session.rs:368-397 | a run publishes at most one reply |
| ExportAdmission.RetainIs | crates/snitchwatch-bridge-cli/src/analysis_export.rs:164-167 | retaining keeps each occurrence in order |
| ExportAdmission.StartForgetsFinishedRuns | crates/snitchwatch-bridge-cli/src/analysis_export.rs:161-204 | every `start` leaves exactly the unfinished runs listed, besides the one it adds, and exactly the sessions still held and open |
| ExportAdmission.StoppedExactlyAfterStop | crates/snitchwatch-bridge-cli/src/analysis_export.rs:255-267 | the service is stopped, and its semaphore closed, exactly once `stop` was called |
| ExportAdmission.AdmittedExactlyWhenFree | crates/snitchwatch-bridge-cli/src/analysis_export.rs:161-195 | a request is admitted if and only if `stop` was never called, fewer than two runs are unfinished and its session is open, idle and without a reply in the way; a permit is then free by itself |
| ExportAdmission.RefusalReasons | crates/snitchwatch-bridge/src/analysis_export/session.rs:210-250 | which reason is given, by the service and by the session |
| ExportAdmission.PublishedReplyIsDelivered | crates/snitchwatch-bridge/src/analysis_export/session.rs:322-397 | a published reply waits, valid and untaken, for its session's sender, which gets it |
| ExportAdmission.NoReplyAfterCancel | crates/snitchwatch-bridge/src/analysis_export/session.rs:251-285 | a run that timed out, was cancelled, or whose session or service closed, publishes nothing in any continuation |
| ExportAdmission.CancelWithdrawsItsReply | crates/snitchwatch-bridge/src/analysis_export/session.rs:251-268 | a cancel marks its own run, withdraws its own reply or makes it invalid, and touches nothing of another request or session |
| ExportAdmission.CloseWithdrawsEverything | crates/snitchwatch-bridge/src/analysis_export/session.rs:269-285 | a close cancels the run and leaves no reply a sender may use |
| ExportAdmission.ReplyMakesRoom | crates/snitchwatch-bridge/src/analysis_export/session.rs:442-460 | a reply that was dropped or expired leaves its session ready for the next request |
| ExportAdmission.DropEndsOwnAdmission | crates/snitchwatch-bridge/src/analysis_export/session.rs:398-411 | a finished run ends its own admission and never another generation's |
| ExportService.AnalysisExports.RetainIn | crates/snitchwatch-bridge-cli/src/analysis_export.rs:164-167 | the retained list, in order |
| ExportService.AnalysisExports.Prune | crates/snitchwatch-bridge-cli/src/analysis_export.rs:164-167 | exactly the jobs still running and the sessions still open stay listed, in order |
| ExportService.AnalysisExports.Start | crates/snitchwatch-bridge-cli/src/analysis_export.rs:161-254 | admitted exactly when the service is not stopped, fewer than two of the listed jobs still run, a permit is free and the session is ready; a refusal of either kind gives the permit back and leaves only the pruned lists |
| ExportService.AnalysisExports.Stop | crates/snitchwatch-bridge-cli/src/analysis_export.rs:255-267 | the service is stopped and its semaphore closed, and every listed session still held is handed back to be closed |
| Broker.ScanBroker.Begin | crates/scanner-broker/src/lib.rs:219-229 | admits exactly when idle; a refusal changes nothing |
| Broker.ScanBroker.DropGuard | crates/scanner-broker/src/lib.rs:211-217 | the broker is idle from this moment, whatever it was |
| Broker.ScanBroker.ClaimIdleShutdown | crates/scanner-broker/src/lib.rs:232-242 | claims exactly when idle for the whole duration |
| Broker.RunningIffOneGuard | crates/scanner-broker/src/lib.rs:192-245 | in every run the broker is Running exactly while one guard is live, and there is never a second |
| Broker.ClaimIsFinal | crates/scanner-broker/src/lib.rs:230-242 | a claim succeeds only with no guard live; afterwards the broker stays Stopping, admits nothing and nothing is dropped |
| BusyNames.Busy.Claim | crates/snitchwatch-bridge-cli/src/busy.rs:26-37 | all names or none, repeated names allowed; a refused claim changes nothing |
| BusyNames.Busy.Release | crates/snitchwatch-bridge-cli/src/busy.rs:40-47 | exactly the guard's names are freed |
| BusyNames.BusyIsUnionOfGuards | crates/snitchwatch-bridge-cli/src/busy.rs:26-47 | in every run the busy set is the disjoint union of the live guards' names |
| BusyNames.DropFreesOnlyItsOwn | crates/snitchwatch-bridge-cli/src/busy.rs:40-47 | dropping a guard frees all of its names and none of another guard's |
| PauseAnnounce.AnnouncedOrOwed | crates/snitchwatch-bridge-cli/src/relays.rs:23-37 | in every reachable state an announcement is owed, or the one being sent or the last one sent is what the present pause record read at that announcement's clocks |
| PauseAnnounce.LastBroadcastIsCurrent | crates/snitchwatch-bridge-cli/src/relays.rs:80-121 | without a clock step since it was read, a settled last broadcast is the current state except exactly when a pause has run out that was running at the read |
| PauseAnnounce.BroadcastIsCurrentIffSameStanding | crates/snitchwatch-bridge-cli/src/relays.rs:23-37 | in every settled state of every run, lapses and clock steps included, the last broadcast is the current state exactly when no pause is recorded or it stands as at the read |
| PauseAnnounce.AnnouncedEndIsRightIffSameSetback | crates/snitchwatch-bridge/src/filter_pause.rs:213-235 | with clock steps, the announced end of a running pause is right exactly when the pause ran at the read and the wall clock's setback is the one of the read |
| PauseAnnounce.WallStepMakesAnnouncementStale | crates/snitchwatch-bridge/src/filter_pause.rs:213-235 | a run in which one backward clock step leaves a settled, wrong announcement |
| PauseAnnounce.LapseOutdatesAnnouncement | crates/snitchwatch-bridge/src/filter_pause.rs:237-250 | a run in which the pause lapsed after the read and the broadcast still shows it |
| PauseAnnounce.LapseBeforeTheReadIsHarmless | crates/snitchwatch-bridge/src/filter_pause.rs:211-235 | a run in which the pause lapsed before the read and the broadcast is right |
| PauseAnnounce.PauseStep | crates/snitchwatch-bridge/src/filter_pause.rs:141-189 | only an allowed request sets a pause, from now on both clocks; only a resume, the loss of its owner's sessions, its own expiry or another allowed request ends it |
| PauseAnnounce.PausedOnlyByARecentRequest | crates/snitchwatch-bridge/src/filter_pause.rs:1-19 | whenever filtering is off, a request for 5, 30 or 60 minutes set the pause less than that long ago on both clocks, and nothing since ended it |
| PauseAnnounce.ShownEnd | crates/snitchwatch-bridge/src/filter_pause.rs:213-231 | the end shown is the earlier of the two deadlines, put on the wall clock; past either the pause is over |
| PauseAnnounce.ChangesAreOwed | crates/snitchwatch-bridge-cli/src/relays.rs:80-121 | every change of the pause record leaves its actor owing an announcement |
| RulesDelta.ApplyUpdateRules | web/js/rules.js:1332-1347 | for any message, the rebuilt list is the rules whose ids were not removed, in order, with the added rules spliced in one after the other |
| RulesDelta.SurvivorsAre | web/js/rules.js:1335-1336 | the survivors are the rules with an id that was not removed, each occurrence in order |
| RulesDelta.SplicePuts | web/js/rules.js:1347 | one splice puts the rule before the one at the index, at the end past it, and counted from the end if negative |
| RulesDelta.MissingIndexIsFront | web/js/rules.js:1347 | a rule without an index goes to the front |
| RulesDelta.SplicingPlaces | web/js/rules.js:1338-1347 | splicing at ascending in-range positions puts every added rule at its position and keeps the base around them |
| RulesDelta.PlacesAndRestDetermine | web/js/rules.js:1335-1347 | a list is determined by the rules at the added positions and the rest in order |
| RulesDelta.RebuildsIffSurvivorsKeepOrder | web/js/rules.js:1335-1347 | with the added rules' ascending positions in the new list, the rebuilt list is the new list exactly when its remaining rules are the old list without the removed ids, in the old order |
| PosixPaths.PlainIsNormal | packaging/release/bridge_artifact.py:167-169 | a path without empty or dotted components is its own normal form |
| PosixPaths.NormalKeepsDotDot | packaging/release/bridge_artifact.py:898-901 | a path whose normal form is plain has no `..` component |
| ReleaseLayout.TarballNameRoundTrip | packaging/release/bridge_artifact.py:855-862 | the name `pack` writes parses back to its version and architecture, dashes in the version included |
| ReleaseLayout.ParsedNameIsCanonical | packaging/release/bridge_artifact.py:855-862 | whatever parses is spelled exactly as `pack` spells it |
| ReleaseLayout.FileFacts | packaging/release/bridge_artifact.py:926-946 | no file the layout admits climbs out, is absolute or is one of the directories, however it is spelled |
| ReleaseLayout.DoubledSlashIsLicense | packaging/release/bridge_artifact.py:167-169 | `is_license` accepts a spelling with a doubled slash |
| ReleaseLayout.VersionsAre | packaging/release/bridge_artifact.py:125 | three dotted numbers, with nothing or a dash or plus and more after them, are a version |
| ReleaseLayout.VersionHasParts | packaging/release/bridge_artifact.py:125 | and every version has those parts |
| ReleaseLayout.LicenseNames | packaging/release/bridge_artifact.py:131 | a license name is of letters, digits, dots, underscores and dashes and starts with a letter or digit |
| ReleaseLayout.BinIsThere | packaging/release/bridge_artifact.py:53 | the binary's path |
| ReleaseLayout.UnitIsThere | packaging/release/bridge_artifact.py:54 | the unit's path |
| ReleaseLayout.TablesAreThere | packaging/release/bridge_artifact.py:55-58 | the paths of the two generated files |
| Ustar.HeaderRoundTrip | packaging/release/bridge_artifact.py:787-795 | a header built for a member reads back to its name, kind, mode, owner, size and time, checksum included |
| Ustar.StreamRoundTrip | packaging/release/bridge_artifact.py:798-812 | a written stream reads back, member by member, to what was written |
| Ustar.NameReadsBack | packaging/release/bridge_artifact.py:787-795 | a member's name reads back as written, except that a directory whose whole path is stored as prefix keeps a trailing slash |
| UstarLayout.HeaderLayout | packaging/release/bridge_artifact.py:787-795 | every field of a written header, at its offset: name, octal numbers, kind, magic and version, owner names, prefix |
| UstarLayout.HeaderChecksum | packaging/release/bridge_artifact.py:798-812 | the checksum field is six octal digits, NUL and space, of the sum of the header with that field blank |
| UstarLayout.SumOfParts | packaging/release/bridge_artifact.py:798-812 | the sum adds up the bytes |
| UstarLayout.OctalModes | packaging/release/bridge_artifact.py:159-160 | the two modes, as octal digits |
| UstarLayout.NameRefused | packaging/release/bridge_artifact.py:798-812 | a name is refused exactly when it is too long and no slash leaves a prefix and a name within 155 and 100 bytes |
| UstarLayout.MemberShape | packaging/release/bridge_artifact.py:798-812 | a member is its header, its data and zeros to the next whole block |
| UstarLayout.StreamShape | packaging/release/bridge_artifact.py:798-812 | a stream is its members and at least two zero blocks, zero-filled to the next whole record |
| SortedStrings.SortSet | packaging/release/bridge_artifact.py:798-812 | the names in code point order, each once |
| SortedStrings.LeqIs | packaging/release/bridge_artifact.py:807 | code point order: a prefix first, otherwise by the first character that differs |
| ReleaseTarball.WriteTar | packaging/release/bridge_artifact.py:798-812 | sorting the names and writing member after member produces the canonical stream, or fails exactly when some member does not fit ustar |
| ReleaseTarball.CheckMembers | packaging/release/bridge_artifact.py:898-923 | no complaint exactly when every member is safe, below the top directory, plain, root-owned and named once |
| ReleaseTarball.ReadFiles | packaging/release/bridge_artifact.py:1157-1179 | contents and members by relative path, the later of two winning |
| ReleaseTheorems.ContentsReadBack | packaging/release/bridge_artifact.py:1157-1170 | reading the canonical stream of any contents gives those contents |
| ReleaseTheorems.LayoutFromKeys | packaging/release/bridge_artifact.py:926-946 | the canonical stream of admissible files passes the layout check |
| ReleaseTheorems.KeysFromLayout | packaging/release/bridge_artifact.py:926-946 | a canonical stream that passes the layout check holds only admissible files |
| ReleaseTheorems.ManifestTableIs | packaging/release/bridge_artifact.py:963-994 | the manifest's table passes exactly when it is the one `build_manifest` makes from the other files |
| ReleaseTheorems.SumsIgnoreThemselves | packaging/release/bridge_artifact.py:780-784 | the checksum table does not depend on the checksum file |
| ReleaseTheorems.VerifyAcceptsPacked | packaging/release/bridge_artifact.py:823-841 | every stream `pack` writes is accepted if its binary lacks the web-UI marker |
| ReleaseTheorems.EveryReaderSeesTheSame | packaging/release/bridge_artifact.py:1038-1049 | whatever members and contents some reader produced, if they pass, the stream reads back to exactly those contents |
| ReleaseTheorems.AcceptedIsCanonical | packaging/release/bridge_artifact.py:1173-1190 | an accepted stream is the canonical serialization of its contents, its checksum file is their table and its manifest the one `pack` would build |
| ReleaseTheorems.AcceptedIsPacked | packaging/release/bridge_artifact.py:1173-1190 | an accepted stream is what `pack` writes for its own files, source record and metadata |
| ReleaseTheorems.VerifyAcceptsExactlyPack | packaging/release/bridge_artifact.py:1203-1230 | with any reader that reads written streams back, a stream is accepted if and only if something packs to it with a binary free of the marker |
| ReleaseTheorems.ReaderDoesNotMatter | packaging/release/bridge_artifact.py:1157-1190 | any two readers that read written streams back accept exactly the same streams, whatever else they read |
| ReleaseTheorems.StrictReaderReads | packaging/release/bridge_artifact.py:1157-1170 | the strict ustar reader is one of them |
| ReleaseTheorems.PackedFilesAreUnique | packaging/release/bridge_artifact.py:798-839 | a packed stream determines the files it was packed from |
| ReleaseTheorems.PackedFromDirectoryIffNormal | packaging/release/bridge_artifact.py:730-754 | an accepted stream comes from a staged directory exactly when all its paths are normal |
| ReleaseTheorems.DoubledSlashIsAccepted | packaging/release/bridge_artifact.py:167-169 | a stream with a license under a doubled slash is accepted and no directory packs to it |
| ReleaseTheorems.OddStagePacks | packaging/release/bridge_artifact.py:823-832 | that stage packs for every source record and metadata, as long as the two generated files fit a member |
| Gzip.MemberRoundTrip | packaging/release/bridge_artifact.py:815-820 | what `gzip_bytes` writes is one member that reads back whole |
| Gzip.UnzipUndoesZip | packaging/release/bridge_artifact.py:877-895 | the bounded reader undoes the writer exactly up to the size cap |
| Gzip.AppendedStaysBehind | packaging/release/bridge_artifact.py:877-895 | bytes after a member, whatever optional header fields it has, stay trailing bytes |
| Gzip.NothingMayFollow | packaging/release/bridge_artifact.py:877-895 | a second member or any other data after an accepted member is refused |
| Gzip.HeaderBytes | packaging/release/bridge_artifact.py:815-820 | the ten bytes of the written header |
| Gzip.MemberIs | packaging/release/bridge_artifact.py:877-895 | a member is read exactly when its deflate data is followed by its own CRC and its own length, least significant byte first |
| Gzip.HeaderEndsThere | packaging/release/bridge_artifact.py:877-895 | a header with any optional fields ends exactly after them |
| ReleaseArtifact.PackedArtifactVerifies | packaging/release/bridge_artifact.py:823-841 | what `pack` releases passes `verify` under its own digest and version exactly when the binary lacks the marker and the tar fits the cap |
| ReleaseArtifact.VerifiedIsPacked | packaging/release/bridge_artifact.py:1203-1230 | with any such reader, an artifact verifies if and only if its sidecar matches, it is within the caps and it holds what `pack` writes for the version and architecture in its name |
| ReleaseArtifact.AppendedDataIsRefused | packaging/release/bridge_artifact.py:877-895 | a verified tarball with anything appended is refused under every name, sidecar and expectation |
| ReleaseMeaning.ContainsIs | packaging/release/bridge_artifact.py:1193-1195 | the marker is found exactly when the bytes are anything, the marker, anything |
| ReleaseMeaning.MarkedBinaryIsRefused | packaging/release/bridge_artifact.py:1193-1200 | no artifact whose binary holds the marker anywhere verifies |
| ReleaseMeaning.MarkedStageNeverVerifies | packaging/release/bridge_artifact.py:1193-1200 | nothing packed from a binary with the marker anywhere in it verifies |
| ReleaseMeaning.ExpectationsBind | packaging/release/bridge_artifact.py:1203-1215 | the expected digest and version, the exact sidecar line and the three size caps all bind |
| ReleaseMeaning.ManifestSays | packaging/release/bridge_artifact.py:638-683 | an accepted manifest, field by field: its header, a 40-digit commit, the tag rule, the time range, and for every other file exactly one entry with its permissions, length and digest, in order |
| ReleaseMeaning.FilesSay | packaging/release/bridge_artifact.py:926-946 | an accepted stream holds the four fixed files, at least one license, and nothing else |
| ReleaseMeaning.LicensesAre | packaging/release/bridge_artifact.py:167-169 | a license is a file of an admissible name directly in the license directory, however its path is spelled |
| ReleaseMeaning.MembersSay | packaging/release/bridge_artifact.py:926-946 | every member of an accepted stream is root's, at the release time, with mode 0755 for directories and the binary and 0644 otherwise |
| ReleaseMeaning.MemberCheckIs | packaging/release/bridge_artifact.py:898-911 | what the member check asks, condition by condition |
| ReleaseMeaning.SumsSay | packaging/release/bridge_artifact.py:997-1010 | an accepted SHA256SUMS, parsed line by line as the check parses it, maps every other file to its digest and lists nothing else |

## Left out

- Real system calls, `/proc` text parsing, pipes (`drain`), output limits and PDEATHSIG: they are abstract steps with arbitrary outcomes.
- SIGKILL takes effect at once: a signalled process is dead in the next state.
- Sessions: a kernel lets a process join a group of its own session only; the model lets any process join any group.
- The pid-only fallback kill (`containment.rs:168-176`): the code accepts its reuse window, so `PidfdKill` covers the pidfd path alone.
- ProcessTree.CompleteSweepLeavesNothing: assumes atomic snapshots and a scanner that forks nothing from the last pass on; a torn `/proc` pass can miss an orphan and the two-pass rule only mitigates that.
- Panics in `notify` or in the active-group kill, poisoned locks, and the 32-bit wrap-around of the sweep's failure counter.
- SQLite: a transaction is one step that commits or changes nothing; `get_state_snapshot`, `set_state_snapshot` and `finish_scan` only store values.
- "Resolved" is not read as "fixed": a skipped check contributes no paths (`scan.rs:55-62`).
- Export: the validity of request ids (checked before `start`), building the document (`prepare`, `snapshot`, `trim_groups`), the refusal messages sent to clients, and the clocks behind deadlines and reply expiry, which may strike at any step.
- Pause: `state` and `take_expired` read the clocks and the record in one step; also the truncation of times to whole Unix milliseconds, the tray resync, answering waiting prompts, and the session bookkeeping that decides whether a request is stale.
- `handleUpdateRules`: its delayed removal timer, selection and animation; only one application of `applyUpdateRules` is modelled.
- JSON, SHA-256, deflate and CRC-32 are parameters with the round-trip laws named in `CodecRoundTrips`, `SelfDelimiting`, `Streams` and `CrcIs32Bit`; the checks of the build, upstream and runtime sections are the parameter `metaOk`; file modes are compared as numbers rather than as octal text.
- Pax and GNU long-name records, base-256 numbers and signed checksums are not spelled out: the reader is a parameter that reads written streams back and may do anything with other input. A member's `pax_headers` are not part of the model; a written stream has none.
- Member and file names are byte strings, so the UTF-8 decoding of names and tables is not modelled; every admissible name is ASCII.
- `--check-ldd`, `--run-flags`, `--extract-to`, `buildinfo` and `thirdparty`.
- The rest of `web/js`, the desktop shells, packaging scripts, `classify.rs`, `rpmverify.rs`, `provenance.rs`, `config.rs` and `cli.rs`: user interface, input and output, and decision chains without state.
