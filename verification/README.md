# Verification model of the environment runtime and its agent harness

The runtime executes tasks and terminal sessions on local and SSH endpoints and promises that their output
and state survive a restart; the harness drives it from a language model. This project models the parts in
which in-memory workers, persisted tables, live streams, startup recovery and the harness's own limits have
to agree with one another, and proves what they do and do not give. `dafny verify dfyconfig.toml` checks it.

How the source's concurrency is stated:

- Protocols with several parties (a detached task, the cancel/watcher race, tmux reattachment) are
  transition systems. One action is what one party does between two of its `await` points, so a sequence of
  actions is an interleaving, and a lemma over all sequences covers them all. `LocalTailer`, `SshTailer`,
  `TmuxTailer` and `TaskService` run the source's loops and calls against arbitrary surroundings and prove
  them to be runs of these systems.
- Loops that are suspended at `await` (the two broker subscriptions) are classes whose methods call `Suspend`
  at each such point; there frames are appended, events stored and published in any order, and the
  connection may break.
- Loops that depend on answers from outside (startup recovery, the agent loop, tool execution) take the
  answers as parameters and are proved for all of them, exceptions and timeouts included.
- Time is abstract: a deadline, a heartbeat or a timeout may fire at any step. SHA-256 is taken as injective
  (`Model.Digest`).

The modules, by part of the system:

- A. Task output: `LogStore`, `DetachedTask`, `DetachedTaskSafety`, `DetachedTaskOutcome`,
  `DetachedTaskLiveness`, `DetachedTaskRuns`, `LocalTailer`, `SshTailer`, `TaskObserve`
- B. Terminal frames and streams: `TerminalFrames`, `TmuxSession`, `TmuxTailer`, `StreamMessages`, `FrameStream`,
  `EventDelivery`, `EventStream`
- C. One-way sync: `PathStrings`, `Paths`, `PathNames`, `SyncPlanner`, `SyncEngine`, `SyncPaths`, `SyncMirror`
- D. Lifecycle and startup: `TaskLifecycle`, `TaskService`, `Recovery`
- E. Harness: `AgentLimits`, `AgentStates`, `AgentLoop`, `Approvals`, `ToolTrace`, `ToolRegistry`, `TextFiles`,
  `TextEdits`, `FileGuard`, `LineWindows`, `WorkspacePaths`

Where a promise of the source turns out not to hold, the code is kept as it is, the exact condition under
which it holds is proved, and a concrete run shows the failure:

- SUCCEEDED or FAILED is stored without all output if and only if the final drain could not read the log
  (never opened locally, or a failed stat over SFTP) and something was left, or, at startup, if the resume
  offset had not reached the end of the log.
- LOST is right if and only if the launcher had been killed when the task was given up (or has been since,
  if it was wrongly believed dead); an unreadable status file, a race between the two checks, a failed
  connection and a failed publication at startup each store a LOST that is not.
- CANCELLED is what is stored in the end if and only if a completed cancel wrote last, or the watcher did after
  reading CANCELLING. The watcher does not write at all when it is ended first: a cancel that waits for a
  detached task in vain withdraws the future the watcher awaits.
- The output of a tmux session tiles its log if and only if no tailer commits after another one has since the
  former attached or last committed; otherwise, and only then, a byte is persisted twice.
- An event published out of store order is lost to every live subscriber.
- A push that fails, followed by a push of a tree with the old content back, leaves the remote wrong under a
  manifest that says otherwise; `push_file` records uploads it never made.
- Two tool calls with different names pass for one when a name has a colon in it.
- A normalised path whose second character is a colon is refused when it is normalised again.
- A text with overlapping places passes for an unambiguous edit; a text with a carriage return written
  through the sync target blocks the next unhashed write.

## Model

| member | source | states |
|---|---|---|
| DetachedTaskSafety.RecordsTileThePrefix | environment_runtime/persistence/repositories.py:123-157 | over every run of launcher, tailer, watcher, cancel, crash and restart, the records in offset order tile a prefix of the log file and the resume offset is its length |
| DetachedTaskSafety.PersistedOnlyGrows | environment_runtime/services/task.py:247-303 | whatever happens next, restarts included, persisted output is only extended |
| DetachedTaskSafety.OtherTasksUntouched | environment_runtime/services/task.py:43-51 | no step of one task adds a record to another |
| DetachedTaskLiveness.TailerCatchesUp | environment_runtime/providers/execution/local_detached.py:158-188 | a tailer left alone, local or over SFTP with a truthful stat, persists its whole log after finitely many of its own steps |
| DetachedTaskLiveness.FinishedTaskIsStoredComplete | environment_runtime/providers/execution/local_detached.py:158-191 | from any reachable state with a polling tailer, local or over SFTP, and a finished launcher, their own steps with truthful answers store the recorded code with the whole log persisted |
| DetachedTaskOutcome.OutcomeIsTheRecordedOne | environment_runtime/services/task.py:221-245 | SUCCEEDED only if the launcher recorded 0, FAILED with a code only if it recorded that code, FAILED without one only as recovery's mark for an unreadable status; a stored code is always the recorded one, and under LOST it was left there by startup recovery |
| DetachedTaskOutcome.LiveOutcomeIsComplete | environment_runtime/providers/execution/ssh_detached.py:110-139 | an exit code stored by a live watcher means that all output from before the exit is persisted, if and only if the final drain could read the log or nothing was left to read |
| DetachedTaskOutcome.RecoveredOutcomeIsComplete | environment_runtime/services/task.py:258-293 | an outcome stored by startup recovery stands over complete output if and only if the output persisted at the restart already was |
| DetachedTaskOutcome.RecoveryRecordsResumeOffset | environment_runtime/services/task.py:258-293 | and that is the resume offset at the restart, the length of what was persisted |
| DetachedTaskOutcome.LiveLostIff | environment_runtime/services/task.py:221-245 | a live watcher stores LOST if and only if the status file was found unreadable, or not found and the process reported dead |
| DetachedTaskOutcome.CancelledByWatcherIff | environment_runtime/services/task.py:221-245 | a watcher stores CANCELLED if and only if the task was CANCELLING when it woke and it is not one that startup started, whatever is stored in between |
| DetachedTaskOutcome.StateChangedBy | environment_runtime/services/task.py:185-303 | who changes the stored state, and when |
| DetachedTaskOutcome.TimedOutCancelEndsWatcher | environment_runtime/providers/execution/local_detached.py:125-134 | after a cancel whose wait ran out, only cancels change what is stored until the next restart |
| DetachedTaskOutcome.LostIsRightIff | environment_runtime/providers/execution/ssh_detached.py:130-147 | over every run: no exit code is or will be recorded for a LOST task if and only if its launcher was killed when it was given up, or was wrongly believed dead and has been killed since; and when exactly the status file contradicts LOST |
| DetachedTaskOutcome.LostWithTruthfulProcessProbe | environment_runtime/providers/execution/local_detached.py:193-203 | if processes are reported dead only when they are, LOST is right exactly for a killed launcher and contradicted otherwise |
| DetachedTaskOutcome.TruthfulChecksAreRight | environment_runtime/providers/execution/local_detached.py:193-203 | with truthful probes and nothing between them the tailer gives up exactly the tasks that never record a code |
| DetachedTaskOutcome.RestartLosesIff | environment_runtime/services/recovery.py:42-60 | startup stores LOST exactly without a backend, after an exception before looking, when the status file is found and publishing the outcome raises, or when it is not found and the process not alive; with truthful probes and no exception exactly for tasks that never record a code |
| DetachedTaskOutcome.NotYetRunningIsLost | environment_runtime/services/recovery.py:45-60 | a task that was never stored as RUNNING is LOST at startup |
| DetachedTaskOutcome.Reattached | environment_runtime/services/task.py:294-303 | a task found alive is tailed on from the length of its persisted output |
| DetachedTaskOutcome.NeverRecordsIff | environment_runtime/providers/execution/_launcher.py:98-121 | no continuation records a code if and only if the launcher was killed |
| DetachedTaskRuns.UnopenedLogIsLost | environment_runtime/providers/execution/local_detached.py:158-191 | a reachable state with SUCCEEDED stored and none of the output |
| DetachedTaskRuns.ExitsWithoutLog | environment_runtime/providers/execution/_launcher.sh:71-75 | a reachable state over SSH with an exit recorded and no log |
| DetachedTaskRuns.FailedStatLosesOutput | environment_runtime/providers/filesystem/sftp.py:107-112 | the same over SFTP, where the stat of the log fails in the final drain |
| DetachedTaskRuns.FinishedWhileDownIsNotDrained | environment_runtime/providers/execution/ssh_detached.py:223-261 | a reachable state in which recovery stored SUCCEEDED and the output is missing |
| DetachedTaskRuns.LostWithRecordedCode | environment_runtime/services/recovery.py:47-60 | a reachable LOST with exit code 0, because publishing the recovered outcome raised |
| DetachedTaskRuns.LostCanBePessimistic | environment_runtime/providers/execution/local_detached.py:193-203 | a reachable LOST with success recorded between the two checks |
| DetachedTaskRuns.UnreadableStatusIsLost | environment_runtime/providers/execution/local_detached.py:205-211 | a reachable LOST with success recorded and no race, because the status file could not be read |
| DetachedTaskRuns.LostWhileRunning | environment_runtime/providers/execution/ssh_detached.py:141-147 | a reachable LOST while the command runs, because the probe of the process failed |
| LogStore.ResumeIsTextLength | environment_runtime/persistence/repositories.py:128-157 | on contiguous records the offset order is the commit order and the resume offset is the length of the joined text |
| LogStore.SortIsOrdered | environment_runtime/persistence/repositories.py:128-136 | the query returns a permutation of the task's records in ascending offset order |
| LogStore.LogRepository.Append | environment_runtime/persistence/repositories.py:123-126 | adds one record to its task and none to any other |
| LocalTailer.LocalDetachedHandle.RunLoop | environment_runtime/providers/execution/local_detached.py:149-191 | the polling loop, against any surroundings, is a run of the transition system; suspended, it has read the whole log, seen no status and a live process |
| LocalTailer.LocalDetachedHandle.CheckCompletion | environment_runtime/providers/execution/local_detached.py:193-211 | finishes exactly if the status file is there or the process is reported dead, the status being looked at first |
| LocalTailer.LocalDetachedHandle.DrainAndResolve | environment_runtime/providers/execution/local_detached.py:174-191 | resolves with the pending code after reading until nothing is left |
| LocalTailer.LocalDetachedHandle.OnOutput | environment_runtime/services/task.py:43-51 | takes the record offset before the await and commits the record after it |
| LocalTailer.TailFromReachable | environment_runtime/providers/execution/local_detached.py:149-191 | from any reachable state: suspended, the whole log is persisted; resolved with a code, it is the recorded one and, if the log was open, output from before the exit is persisted |
| LocalTailer.ResolvedFacts | environment_runtime/providers/execution/local_detached.py:230-232 | a completed future carries the recorded code; if the last read saw the log it is drained, otherwise nothing was added |
| SshTailer.SSHDetachedHandle.RunLoop | environment_runtime/providers/execution/ssh_detached.py:110-118 | the polling loop over SFTP, against any surroundings and any answers of its probes, is a run of the transition system; suspended after a calm round it has read the whole log and there is no status, as far as its stats were truthful |
| SshTailer.SSHDetachedHandle.DrainLog | environment_runtime/providers/execution/ssh_detached.py:120-128 | if the stat finds the log, hands on everything beyond the offset as one record, before a status check or before resolving |
| SshTailer.SSHDetachedHandle.CheckCompletion | environment_runtime/providers/execution/ssh_detached.py:130-139 | looks at the status file first and, if its stat does not find it, at the process at a later await |
| SshTailer.TailFromReachable | environment_runtime/providers/execution/ssh_detached.py:110-139 | from any reachable state: suspended after a truthful stat, the whole log is persisted; resolved with a code, it is the recorded one, and output from before the exit is complete if and only if the final stat succeeded or nothing was left |
| TaskObserve.Observe | environment_runtime/sdk/agent.py:433-471 | answers with the window of the first poll that has new text or a terminal state, or of the last before the deadline; rejects bad arguments |
| TaskObserve.ChainIsTheLog | environment_runtime/sdk/agent.py:430-471 | calls that pass the cursor on, none truncated, concatenate to the log from the first cursor to the last |
| TaskObserve.TruncatedIsSuffix | environment_runtime/sdk/agent.py:433-471 | a truncated answer is exactly the last max_chars characters of the new text |
| TaskObserve.WindowIsBounded | environment_runtime/sdk/agent.py:454-471 | an answer holds at most max_chars characters, exactly those after the cursor unless truncated, and is_terminal says whether the task has ended |
| TaskObserve.KeepsWaitingIff | environment_runtime/sdk/agent.py:448-453 | polling goes on exactly while asked to, nothing is new and the task may still change |
| TaskObserve.DetachedLogGrowsOnly | environment_runtime/sdk/agent.py:430-431 | the log text of a detached task only grows by appending between any two polls |
| TaskObserve.ObservingLosesNothing | environment_runtime/sdk/agent.py:433-471 | a chain of observations of a detached task across crashes and restarts yields its whole log text once |
| TaskLifecycle.RestsInTerminalState | environment_runtime/services/task.py:185-245 | in every interleaving, timeouts and exceptions included, when watcher and cancels are over the handle is gone if and only if one of them completed, and the stored state is terminal unless the last write of all is the mark of a cancel that raised or, with a watcher that raised, the RUNNING of the start |
| TaskLifecycle.RestsAtCancelling | environment_runtime/services/task.py:185-198 | a run that rests at CANCELLING |
| TaskLifecycle.NobodyRaisedMeansTerminal | environment_runtime/services/task.py:185-245 | if nothing raised, the state at rest is SUCCEEDED, FAILED, CANCELLED or LOST and the handle is gone, also after a cancel whose wait ran out |
| TaskLifecycle.NeverStoresBackwards | environment_runtime/services/task.py:185-245 | neither the watcher nor a cancel ever stores CREATED, PREPARING or RUNNING |
| TaskLifecycle.OutcomeIsTheExitCode | environment_runtime/services/task.py:200-245 | a stored SUCCEEDED, FAILED or LOST agrees with the exit code of the process |
| TaskLifecycle.CancelledAtRestIff | environment_runtime/services/task.py:185-245 | in every run at rest, CANCELLED is stored if and only if a completed cancel wrote last or the watcher did after reading CANCELLING; equivalently, for a watcher that stored: no mark came last, and it had read CANCELLING or wrote before a completed cancel did |
| TaskLifecycle.CancelledSurvivesIff | environment_runtime/services/task.py:185-245 | in a run at rest in which nothing raised: if and only if the wait of a cancel ran out before the exit, or the watcher had read CANCELLING, or a completed cancel wrote after it |
| TaskLifecycle.WatcherUndoesCancelled | environment_runtime/services/task.py:206-218 | when all cancels have completed before a live watcher reads the task, the completion is set and the watcher, unless it raises, stores SUCCEEDED, FAILED or LOST over CANCELLED |
| TaskLifecycle.NothingFollowsAbort | environment_runtime/services/task.py:220-226 | once the watcher is ended and the handle removed, what is stored stays whatever is called later |
| TaskLifecycle.CancelledIsRewritten | environment_runtime/services/task.py:185-245 | a run RUNNING, CANCELLING, CANCELLED, SUCCEEDED in which the cancel comes before the watcher reads |
| TaskLifecycle.DecidedBeforeCancel | environment_runtime/services/task.py:227-245 | one in which the watcher decides before the cancel and stores after it |
| TaskLifecycle.TimedOutCancelSurvives | environment_runtime/providers/execution/local_detached.py:125-134 | a run in which the wait of the cancel runs out: the watcher is ended and CANCELLED stays for good |
| TaskLifecycle.CloseRaisesKeepsHandle | environment_runtime/providers/execution/ssh_detached.py:91-108 | one in which closing the handle then raises: all is over at CANCELLING with the handle registered |
| TaskService.Service.Watch | environment_runtime/services/task.py:200-245 | the watcher, against any surroundings, is a run of the transition system: it ends done, waiting for an exit that has not come, or ended without a store because the completion was withdrawn or closing or publishing raised |
| TaskService.Service.Cancel | environment_runtime/services/task.py:185-198 | a cancel call is such a run: it stores last the record it read with CANCELLED, after the exit or a wait that ran out; or raises after CANCELLING, of itself, because another call withdrew the completion or because a local process did not end in time; or finds no handle and writes nothing |
| TaskService.Service.CancelHandle | environment_runtime/providers/execution/local_detached.py:107-134 | the wait inside: it is over with the completion set, or after withdrawing it for a detached task, or raises |
| TaskService.WatchFrom | environment_runtime/services/task.py:200-245 | a watcher that completes has removed the handle and leaves an outcome that agrees with the exit code, whatever cancels do meanwhile; one ended by a withdrawn completion leaves CANCELLING or CANCELLED |
| Recovery.Runtime.ReattachTask | environment_runtime/services/task.py:247-303 | exactly what one reattachment writes, whether it raises and whether it reports success, also when publishing raises after the write |
| Recovery.Runtime.ReattachSession | environment_runtime/services/session.py:202-262 | the same for a session and its handle |
| Recovery.Runtime.ReconcileTasks | environment_runtime/services/recovery.py:36-69 | while watchers of records already treated end at every turn, each record is as its own probe and watcher leave it; the count is the number of recoverable tasks |
| Recovery.Runtime.ReconcileSessions | environment_runtime/services/recovery.py:71-97 | the same for sessions |
| Recovery.Runtime.Reconcile | environment_runtime/services/recovery.py:31-34 | startup is total while watchers end meanwhile; for each record, in terms of its probe and of how its watcher ended: exactly when a live task ends SUCCEEDED, FAILED, LOST or RUNNING and a live session TERMINATED, DETACHED, ACTIVE or DISCONNECTED, and with which exit code; other records are unchanged; the counts are the numbers of live records |
| Recovery.TaskIsHonest | environment_runtime/services/recovery.py:42-68 | one record: an outcome exactly as the status file gave it and could be published, or as the watcher that ended found it; LOST exactly when it could not be reattached, publishing raised, or the watcher ended without a code; RUNNING exactly with a watcher |
| Recovery.SessionIsHonest | environment_runtime/services/recovery.py:76-96 | one session: TERMINATED exactly when found finished and published, or when its watcher ended; DETACHED exactly when it could not be checked; ACTIVE exactly with a published attachment; DISCONNECTED otherwise |
| Recovery.TasksCounted | environment_runtime/services/recovery.py:42-69 | the running count is the number of tasks in PREPARING, RUNNING or CANCELLING |
| Recovery.DisconnectedWithHandle | environment_runtime/services/session.py:249-262 | DISCONNECTED with a handle still registered exactly when publishing the reconnection raises |
| Recovery.ReconcileIsStable | environment_runtime/services/recovery.py:42-44 | reconciling again changes no task that recovery has finished |
| TerminalFrames.TerminalFrameRepository.Append | environment_runtime/persistence/repositories.py:165-211 | keeps numbers dense from 0 and offsets prefix sums for every session, and touches no other session |
| TerminalFrames.TerminalFrameRepository.LastSeq | environment_runtime/persistence/repositories.py:260-268 | one less than the number of frames |
| TerminalFrames.TailOf | environment_runtime/persistence/repositories.py:229-247 | the backward walk that stops early returns exactly the last limit characters of all output |
| TerminalFrames.PageIsSlice | environment_runtime/persistence/repositories.py:213-227 | a page starts right after after_seq, has no hole and is short only at the end |
| TerminalFrames.ResumeOffsetIsLength | environment_runtime/persistence/repositories.py:249-258 | the output resume offset is the length of the persisted output, whatever other frames lie between |
| TerminalFrames.AppendedIs | environment_runtime/persistence/repositories.py:165-211 | an appended frame keeps the numbering and adds to the output exactly if it is output |
| TmuxSession.FramesOverAnyRun | environment_runtime/services/session.py:148-187 | over every run, concurrent attachments included, numbering stays dense, offsets prefix sums, the resume offset the length of the output, and the output the stretches of the log its frames come from |
| TmuxSession.OutputTilesIff | environment_runtime/services/session.py:242-248 | over every run: the output tiles the log if and only if no tailer commits after another has since the former began to attach or last committed; otherwise, and only then, a byte is persisted twice |
| TmuxSession.SerialReattachmentKeepsOutput | environment_runtime/services/session.py:242-248 | across any number of reattachments one at a time, output frames concatenate to a prefix of the remote log and the resume offset is its length |
| TmuxSession.TilesIffNeverTwice | environment_runtime/persistence/repositories.py:249-258 | frames whose ranges never run ahead tile the log if and only if no byte lies in two of them |
| TmuxSession.TwoTailersRepeat | environment_runtime/providers/session/ssh_tmux.py:147-155 | when two tailers with text from one position have both committed, the output ends with both texts, one repeating the beginning of the other |
| TmuxSession.NoTailerNoOutput | environment_runtime/providers/session/ssh_tmux.py:136-155 | after a crash or the end of the last tailer no output is persisted until a new attachment begins |
| TmuxSession.OtherFrameIsAppended | environment_runtime/services/session.py:148-187 | frames of input, resizes and markers are persisted and leave the output as it is |
| TmuxSession.ConcurrentAttachDuplicates | environment_runtime/services/session.py:264-277 | a run in which two requests reattach at once and one byte is persisted twice |
| TmuxTailer.SSHTmuxSessionHandle.RunLoop | environment_runtime/providers/session/ssh_tmux.py:136-145 | the polling loop, against any surroundings and answers, is a run of the transition system; it ends with a code the status request gave, having read what its final stat found |
| TmuxTailer.SSHTmuxSessionHandle.DrainLog | environment_runtime/providers/session/ssh_tmux.py:147-155 | if the stat finds the log, hands on everything beyond the offset as one frame |
| TmuxTailer.TailAlone | environment_runtime/providers/session/ssh_tmux.py:136-155 | as the only tailer it keeps the output frames a prefix of the remote log, all of it when suspended after a truthful stat; when resolved, everything there at the final drain is persisted if and only if its stat succeeded or nothing was left |
| TmuxTailer.FinalStatLosesOutput | environment_runtime/providers/filesystem/sftp.py:107-112 | a session that ends with its output missing because the final stat failed |
| FrameStream.BetweenIsExact | environment_runtime/broker/server.py:322-339 | the frames between two numbers are each such frame once, in order |
| FrameStream.Stream.SendFrame | environment_runtime/broker/server.py:334-337 | keeps, with frames appended meanwhile, that exactly the frames above after_seq up to last_seq were sent |
| FrameStream.Stream.SendNewFrames | environment_runtime/broker/server.py:322-339 | ends with every frame of the table sent, unless the limit was reached or the connection broke |
| FrameStream.Stream.OnWake | environment_runtime/broker/server.py:296-315 | one wake-up: at an event of this session every frame of the table is sent, unless the limit is reached; a heartbeat reports the number of frames sent and the number of the last one |
| FrameStream.Stream.Subscribe | environment_runtime/broker/server.py:262-319 | throughout: the frames sent are exactly those above after_seq up to last_seq, at most max_items, and end messages count them; every frame there at the start, and at a last wake-up, is sent unless the connection breaks |
| EventDelivery.SentIsSafe | environment_runtime/broker/server.py:206-259 | whatever order events are published in, those sent are strictly ascending, above after_sequence, and of the resource type, resource id and event types asked for |
| EventDelivery.FilterSelects | environment_runtime/broker/server.py:346-356 | without a filter everything above after_sequence is wanted, with one exactly those events of it whose fields are as asked for |
| EventDelivery.NothingLostIffAscending | environment_runtime/broker/server.py:246-257 | the live loop loses nothing exactly if the wanted events leave the queue in ascending order |
| EventDelivery.InOrderHandoffHasNoGap | environment_runtime/broker/server.py:223-257 | with publication in store order, what is sent are exactly the matching events up to the highest one replayed or dequeued |
| EventDelivery.OutOfOrderLosesTheEarlier | environment_runtime/broker/server.py:251-252 | of two events dequeued in the wrong order only the later is ever sent |
| EventStream.InMemoryEventBus.Publish | environment_runtime/events/bus.py:14-23 | keeps a number that is given, otherwise hands out one above all before; every queue keeps holding exactly the events published since its subscription |
| EventStream.SubscribedReceivesAll | environment_runtime/events/bus.py:28-34 | between its subscription and its end a subscriber receives exactly the events published meanwhile, in order |
| EventStream.Stream.TakeOne | environment_runtime/broker/server.py:246-257 | a dequeued event leaves the sent events as the de-duplication specification has them |
| EventStream.Stream.SubscribeEvents | environment_runtime/broker/server.py:206-259 | with stores and publications at every await: what is sent is a prefix of the specified delivery, all of it at an open or timed-out end; every event sent is above after_sequence and has the type, id and event type asked for, and if published in order none such is missing; it breaks only with its connection, and an open stream has had one heartbeat or event a turn |
| SyncPlanner.DetectRemoteConflicts | mini_harness/sync/planner.py:102-122 | conflicts are exactly the paths at which the hashes differ, sorted, each with its reason |
| SyncPlanner.NoConflictsIff | mini_harness/sync/planner.py:102-122 | there is no conflict if and only if the two hash maps are equal |
| SyncPlanner.PlanPush | mini_harness/sync/planner.py:71-99 | no conflicts exactly if there is no remote map or it equals the last pushed one; with conflicts nothing is planned, without them the plan is the one determined by the two maps |
| SyncPlanner.PlanIsThePatch | mini_harness/sync/planner.py:86-99 | applying the plan to the last pushed map gives the local map, or that map overridden by the local one when nothing is deleted |
| SyncPlanner.PlanPartitionsLocal | mini_harness/sync/planner.py:86-94 | uploads and unchanged paths are disjoint and together the local paths |
| SyncPlanner.PlanIsDetermined | mini_harness/sync/planner.py:71-99 | there is only one such plan |
| PathStrings.SortedIsUnique | mini_harness/sync/planner.py:86-98 | a set of paths has one sorted list |
| PathStrings.LessIff | mini_harness/sync/planner.py:86-98 | the order of the list: the first character that differs decides, and a proper prefix comes first |
| SyncEngine.Engine.Push | mini_harness/sync/engine.py:69-124 | the remote and the saved manifest after a push that completes or is stopped by an exception at any point |
| SyncEngine.Engine.PushFile | mini_harness/sync/engine.py:126-202 | the same for one file, and exactly when it refuses and how |
| SyncPaths.RemotePathComponents | mini_harness/sync/engine.py:204-208 | for every spelling of a path, with slashes or backslashes between and around its components: its remote file has the components of the root followed by those of the path |
| SyncPaths.RemotePathOfSeparators | mini_harness/sync/engine.py:204-207 | a path without components stands for the root |
| SyncPaths.SyncPathIff | mini_harness/sync/engine.py:220-224 | push_file refuses exactly the paths without components and those with one that leads upwards |
| SyncPaths.TransferTouches | mini_harness/sync/engine.py:83-121 | a push, failing anywhere, removes no remote file and touches only those of the uploaded paths and of the manifest |
| SyncPaths.PushStaysInside | mini_harness/sync/engine.py:83-121 | so every remote file a push makes or changes lies inside the root |
| SyncPaths.PushFileStaysInside | mini_harness/sync/engine.py:161-191 | the same for a single file |
| SyncPaths.FileReadsBack | mini_harness/sync/engine.py:204-208 | the components of a remote file after those of the root give the scanned path back |
| PathNames.EveryPathIsSpelled | mini_harness/sync/engine.py:204-208 | every path that is not all separators is its components with separators between and around them |
| PathNames.RootOfSpelled | mini_harness/workspace.py:261-263 | a configured root keeps its components, whatever follows the last one |
| SyncMirror.CompletedPushAt | mini_harness/sync/engine.py:83-121 | a completed push makes a path right on the remote if and only if it was uploaded or was right before |
| SyncMirror.CompletedPushMirrors | mini_harness/sync/engine.py:69-124 | from a mirror, a completed push leaves a mirror that equals local on every scanned path |
| SyncMirror.RunIsSound | mini_harness/sync/engine.py:69-202 | over every run of pushes and single-file pushes of changing trees, failing anywhere, the saved manifest describes the remote outside a set of stale paths that is computed from the run |
| SyncMirror.PushAfterAnyRun | mini_harness/sync/engine.py:69-124 | after any run, a completed push restores the mirror when no stale path has its saved content back |
| SyncMirror.RetriedPushRestoresMirror | mini_harness/sync/engine.py:83-121 | a push that fails any number of times, anywhere, and then completes on the same tree restores the mirror and equals local |
| SyncMirror.RevertedAfterFailureIff | mini_harness/sync/engine.py:83-97 | after a failed push, a push of a tree with the saved content back ends right if and only if both versions read the same |
| SyncMirror.RevertedAfterFailureIsStale | mini_harness/sync/engine.py:83-121 | a run that ends with the wrong text under the saved hash |
| SyncMirror.PushFileMirrorsIff | mini_harness/sync/engine.py:161-191 | push_file keeps the mirror if and only if every other pending upload is already on the remote |
| SyncMirror.PushFileHidesPending | mini_harness/sync/engine.py:161-191 | what push_file saved without uploading, no later push of the same tree uploads |
| SyncMirror.DeletesAreNotExecuted | mini_harness/sync/engine.py:83-121 | a remote file that is not scanned stays as it is, also where a delete was planned |
| SyncMirror.SameRemotePathIff | mini_harness/sync/engine.py:204-208 | two paths share a remote file if and only if their slashed and stripped names agree, or under the root `.` one is empty and the other `.` |
| SyncMirror.RemotePathInjective | mini_harness/sync/engine.py:204-208 | so names without backslashes go to different remote files, none to the manifest's |
| SyncMirror.BackslashNamesCollide | mini_harness/sync/engine.py:204-208 | two names that share a remote file |
| SyncMirror.RemoteHashIsSavedHashIff | mini_harness/sync/engine.py:89-93 | a mirrored file has the saved hash if and only if its text has no carriage return |
| SyncMirror.ManifestAfter | mini_harness/sync/engine.py:99-121 | a completed push leaves the remote manifest equal to the saved one, one stopped while uploading leaves both alone, and if only saving fails the remote one is ahead |
| TextFiles.ReadTextIsIdentityIff | mini_harness/sync/engine.py:92-92 | reading with newline translation changes exactly the texts with a carriage return, and none twice |
| TextFiles.ReadTextConcat | mini_harness/sync/engine.py:92-92 | reading goes piece by piece, except between a carriage return and its newline |
| TextFiles.ReadTextOfNewlines | mini_harness/sync/engine.py:92-92 | and makes one newline of a carriage return, a newline or both, and of any other character itself |
| AgentLimits.IterationsSplit | mini_harness/agent/loop.py:67-141 | for every script of replies: iterations are exactly the tool calls, repeat warnings, rejected and accepted finals and early errors; errors in a row stay below the limit at each loop head |
| AgentLimits.RunIsBounded | mini_harness/agent/loop.py:67-146 | a run ends after at most max_iterations model calls, COMPLETED exactly by an accepted final, and by the iteration limit exactly if it was still going on then |
| AgentLimits.RepeatedCallsAreNotExecuted | mini_harness/agent/loop.py:182-196 | a call is refused if it ends repeated_action_limit calls in a row with one name and the same arguments; and, names having no colon, only then |
| AgentLimits.LastOfRepetitionIsNotExecuted | mini_harness/agent/loop.py:243-260 | the last of any repeated_action_limit consecutive decisions of the script with one name and the same arguments was not executed |
| AgentLimits.RefusedIsRepetition | mini_harness/agent/loop.py:182-196 | a decision that was not executed had the name and arguments of the repeated_action_limit - 1 before it, unless a tool name has a colon |
| AgentLimits.FingerprintsAgreeIff | mini_harness/tools/registry.py:494-495 | two fingerprints agree if and only if name and arguments do, or one name continues the other with a colon and the arguments make up for it |
| AgentLimits.ColonsCollide | mini_harness/tools/registry.py:494-495 | two calls that pass for one |
| AgentLimits.CallsAreTheDecisions | mini_harness/agent/loop.py:170-181 | the calls on record are the tool decisions of the script, in order |
| AgentLimits.CountersCount | mini_harness/agent/loop.py:170-241 | tool calls, failed calls, warnings and finals count what they are called, save for a last iteration that ended by an exception |
| AgentLimits.ErrorsInARow | mini_harness/agent/loop.py:197-241 | the consecutive errors are the iterations since the last success |
| AgentLimits.GoesOnIff | mini_harness/agent/loop.py:67-146 | after which replies the run goes on |
| AgentLimits.RepeatingModelIsStopped | mini_harness/agent/loop.py:182-196 | a model that from any point on repeats one call is stopped within repeated_action_limit - 1 + max_consecutive_tool_errors iterations |
| AgentLimits.BoundIsReached | mini_harness/agent/loop.py:182-240 | and that bound is tight |
| AgentStates.TerminalIff | mini_harness/agent/state.py:30-62 | a state has no way out exactly if it is terminal; from every other one the run can be failed or cancelled |
| AgentStates.RunsAreOrderly | mini_harness/agent/state.py:30-62 | in every legal run a tool runs only right after the model chose one, the model is asked only right after planning, and the run completes only right after a result |
| AgentLoop.AgentLoop.Move | mini_harness/agent/loop.py:277-283 | every transition the loop attempts is legal where it is attempted |
| AgentLoop.AgentLoop.RecordFingerprint | mini_harness/agent/loop.py:243-260 | the bounded window of fingerprints recognises exactly the repetitions in the whole history |
| AgentLoop.AgentLoop.ExecuteDecision | mini_harness/agent/loop.py:170-241 | the counters after a tool decision are those of the account of the run |
| AgentLoop.AgentLoop.Run | mini_harness/agent/loop.py:55-160 | for every script of replies and exceptions the run ends COMPLETED or FAILED with the counts of the account of the run |
| AgentLoop.WindowRepeats | mini_harness/agent/loop.py:245-250 | keeping the last limit fingerprints is as good as keeping all |
| Approvals.AtMostTwoRuns | mini_harness/tools/registry.py:57-180 | a tool runs at most twice in a call |
| Approvals.RunNeedsApproval | mini_harness/tools/registry.py:76-140 | a run happens only after permission by the policy or a yes, and with the override exactly after a yes to a sandbox question |
| Approvals.SecondRunNeedsDenial | mini_harness/tools/registry.py:141-157 | the second run directly follows a sandbox denial and a further yes, and has the override the first had not |
| Approvals.NothingAfterRefusal | mini_harness/tools/registry.py:57-180 | a refusal, an exception or a timeout is the last thing that happens |
| Approvals.SandboxQuestionsAreConfigured | mini_harness/tools/registry.py:141-157 | without the configuration to approve sandbox denials there is no sandbox question and no run with the override; without the one for root escalation, none about that |
| ToolRegistry.ToolRegistry.Execute | mini_harness/tools/registry.py:57-180 | for all outcomes of tool, policy, preview and handler: what happens and how the call ends are the specified trace and end; the rules are kept, the override depth is restored on every exit, the end fits the last event, and a returned result claims only what the trace shows |
| ToolTrace.RequestsAskedIff | mini_harness/tools/registry.py:182-212 | the user is asked for the override before the run exactly when the sandbox denied the requests and that, root escalation included, may be approved |
| ToolTrace.PreviewedIff | mini_harness/tools/registry.py:87-92 | the preview is made exactly when the call goes on, has one, and somebody would see it or unguarded writes are forbidden; under the override exactly after it was approved |
| ToolTrace.PreviewAskedIff | mini_harness/tools/registry.py:93-110 | a shown preview is always asked about when somebody can be asked |
| ToolTrace.PermissionAskedIff | mini_harness/tools/registry.py:111-133 | permission is asked for exactly when the policy denies and no preview settles it |
| ToolTrace.TerminalOpenAskedIff | mini_harness/tools/registry.py:134-148 | opening a terminal is asked about exactly when configured and nothing before was refused |
| ToolTrace.RanIff | mini_harness/tools/registry.py:57-149 | the tool runs exactly when the call goes on, no preview ends it and every question before was answered yes |
| ToolTrace.ResultAskedIff | mini_harness/tools/registry.py:149-158 | after a run the user is asked exactly when it had no override, the sandbox denied it, and that, root escalation included, may be approved |
| ToolTrace.SecondRunIff | mini_harness/tools/registry.py:158-164 | a yes to that comes exactly between the two runs, the second with the override |
| ToolTrace.ReturnedIff | mini_harness/tools/registry.py:149-180 | a result is returned exactly when the last event is a run that gave one or a refusal to repeat it, and then it claims what the trace shows |
| ToolTrace.TraceIsLawful | mini_harness/tools/registry.py:57-180 | every trace keeps the rules of approval |
| ToolTrace.OtherEnds | mini_harness/tools/registry.py:63-92 | which calls end as unknown tool, invalid arguments, harness error or preview result, and which are denied because nobody can be asked |
| ToolRegistry.ToolRegistry.PermissionRequests | mini_harness/tools/registry.py:182-212 | requests are obtained exactly without an error or after an approved sandbox error; otherwise how the call ends |
| ToolRegistry.ToolRegistry.ApprovalPreview | mini_harness/tools/registry.py:232-265 | the preview sees the override exactly if it was approved, and restores it |
| ToolRegistry.ToolRegistry.ExecuteTool | mini_harness/tools/registry.py:214-230 | a run sees the override exactly if it was approved, and restores it |
| ToolRegistry.WorkContext.Execute | mini_harness/runtime/work_context.py:362-371 | code that enters the override, nested and in sequence, and may raise anywhere, leaves the depth as it was |
| TextEdits.UnambiguousIff | mini_harness/tools/runtime/file.py:1052-1077 | an edit passes for unambiguous if and only if the text occurs and every place overlaps the leftmost |
| TextEdits.OverlapIsNotAmbiguous | mini_harness/tools/runtime/file.py:1066-1077 | a text with two places that is not refused |
| TextEdits.NotFoundIff | mini_harness/tools/runtime/file.py:1052-1065 | an edit is refused as not found if and only if the text occurs nowhere |
| TextEdits.ReplaceOnce | mini_harness/tools/runtime/file.py:1078-1079 | a single replacement changes the leftmost place and nothing else |
| TextEdits.ReplaceAllLength | mini_harness/tools/runtime/file.py:1078-1079 | replacing all changes the length by the counted number of places |
| TextEdits.ReplaceAllCuts | mini_harness/tools/runtime/file.py:1078-1079 | replacing all puts the other text at every place found going from the left, and behind the last one there is none |
| TextEdits.ReplaceByItself | mini_harness/tools/runtime/file.py:1078-1079 | replacing a text by itself changes nothing |
| FileGuard.PrepareFromCurrent | mini_harness/tools/runtime/file.py:1090-1144 | a change is let through if and only if the current content is the one the caller names or the context saw last, or neither is known; which hash was ignored |
| FileGuard.FileTools.Read | mini_harness/tools/runtime/file.py:180-212 | records the snapshot of what it returns |
| FileGuard.FileTools.Apply | mini_harness/tools/runtime/file.py:313-341 | lands exactly under the guard, writes what was planned, records it as the snapshot, and otherwise changes nothing |
| FileGuard.Run | mini_harness/runtime/work_context.py:541-554 | over every run of reads, changes and outside changes, snapshots are the digests of what was seen last and every change was justified |
| FileGuard.LandedReplacedWhatWasSeen | mini_harness/tools/runtime/file.py:1100-1131 | no lost update: a change that landed replaced the text the caller named or the context saw last, unless nothing was known and unguarded writes are allowed |
| FileGuard.OutsideChangeBlocks | mini_harness/tools/runtime/file.py:1103-1131 | without a caller's hash a seen file can be changed exactly while it has the text seen last |
| FileGuard.ChangeAfterOutside | mini_harness/tools/runtime/file.py:313-341 | after any outside changes, a change without a hash to a seen file lands if it still shows the text seen last and is refused otherwise |
| FileGuard.WriteAgainIff | mini_harness/file_ops.py:127-168 | content just written can be changed again without a hash, except through the sync target if it has a carriage return |
| FileGuard.SnapshotOfTheOtherSide | mini_harness/runtime/work_context.py:541-554 | a snapshot of the local file guards the remote one: a change lands exactly if both texts agree |
| FileGuard.EditReplacesThePlace | mini_harness/tools/runtime/file.py:1032-1087 | an edit is refused, or replaces the leftmost place with no place wholly after it |
| FileGuard.EditReplacesAll | mini_harness/tools/runtime/file.py:1032-1087 | an edit of all places is refused exactly if there is none, and otherwise replaces each found from the left |
| FileGuard.StoredChangesOneFile | mini_harness/file_ops.py:127-168 | a write changes the file of its path and no other, and reaches the remote side as specified by target and push |
| FileGuard.PlanForMissing | mini_harness/tools/runtime/file.py:1043-1052 | in a missing file nothing is found, and a write needs none |
| LineWindows.ReadWindow | mini_harness/tools/runtime/file.py:183-225 | exactly when the line arguments are refused, and the window otherwise |
| LineWindows.ReadingOnReadsAll | mini_harness/tools/runtime/file.py:213-225 | following next_start_line reads every line from the start on exactly once |
| LineWindows.WindowIsMaximal | mini_harness/tools/runtime/file.py:213-225 | the selected lines are the file's from the start on, as many as the request allows, and next_start_line is the line after them |
| LineWindows.ReportedEndIff | mini_harness/tools/runtime/file.py:221-222 | the reported end line is the requested one, and the last line selected exactly if that lies in the file |
| WorkspacePaths.NormalizeRelativeShape | mini_harness/workspace.py:283-304 | the loop computes the specified normal form or the specified refusal |
| WorkspacePaths.NormalizedOfSpelled | mini_harness/workspace.py:283-304 | for every spelling of a path: it is refused as absolute exactly with a separator in front or a colon in second position, as outside exactly with an upward component, and otherwise gives its components that name something |
| WorkspacePaths.NormalizedOfSeparators | mini_harness/workspace.py:283-292 | of paths without components only the empty one is accepted |
| WorkspacePaths.NormalizedIsNormal | mini_harness/workspace.py:283-304 | every accepted path comes out without empty, dot or dot-dot components and without backslashes |
| WorkspacePaths.ComponentsAreKept | mini_harness/workspace.py:294-304 | and has exactly the components of the input that name something |
| WorkspacePaths.EveryNormalFormIsReached | mini_harness/workspace.py:283-304 | the results are exactly the normal forms |
| WorkspacePaths.IdempotentIff | mini_harness/workspace.py:283-304 | normalising again is the identity if and only if the second character is not a colon |
| WorkspacePaths.NormalisedButRefused | mini_harness/workspace.py:287-292 | an accepted path whose normal form is refused |
| WorkspacePaths.DisplayInvertsRuntime | mini_harness/workspace.py:186-208 | displaying the remote runtime path of an accepted path gives the normalised path back |
| WorkspacePaths.SameRuntimePathIff | mini_harness/workspace.py:186-194 | two accepted paths have one remote runtime path if and only if they normalise alike |
| WorkspacePaths.MappedIff | mini_harness/workspace.py:179-194 | a path is mapped exactly if it normalises and its normal form is authorised or the policy is off; otherwise the error tells which |
| WorkspacePaths.RemoteRootComponents | mini_harness/workspace.py:258-263 | the remote root has the components of the configured one, or of the fallback where none is configured |
| WorkspacePaths.RuntimePathStaysInside | mini_harness/workspace.py:186-194 | what follows the root in a runtime path never leads back above it |

## Left out

- DetachedTaskSafety.RecordsTileThePrefix: output is one byte per character; with wider characters the record offsets count characters while the tailer seeks by bytes.
- DetachedTaskOutcome.LiveOutcomeIsComplete: "the whole log" is what was written before the command exited; a process it left behind may still append.
- TmuxSession.SerialReattachmentKeepsOutput: output is one byte per character, and an attachment begins only when no other is attaching or running; OutputTilesIff covers the rest.
- TaskObserve.ChainIsTheLog: a cursor beyond the end of the first poll is answered from its end, as the code does.
- SyncMirror.RunIsSound: the local tree does not change between the scan and the reads of one push, and scanned names hold no backslash and are not the remote manifest's.
- Recovery.Runtime.Reconcile: a watcher moves only once its own record has been treated, and writing the fallback record and publishing its event do not raise; in the source an exception there ends startup.
- AgentLoop.AgentLoop.Run: event sinks do not raise and the run is not cancelled from outside.
- FileGuard.FileTools.Apply: reading the file, deciding and writing are one step, and the preview's refusal of an unguarded write is part of it.
- WorkspacePaths.DisplayInvertsRuntime: the remote target only; on the local target the path library joins and the displayed path is the runtime path itself.
- WorkspacePaths.Policy.RuntimePath: allow and deny patterns are an arbitrary predicate.
- TaskLifecycle.RestsInTerminalState: a write of the task record does not raise, and cancel calls begin once `start` has returned.
- An in-process shutdown, which leaves a reattached tailer running: a restart is the death of the process.
- Output of local processes with two streams, whose merged text is not append-only.
- The steps of a session between its states (attach, detach, terminate and its watcher) apart from frames and startup.
- Database failures: a commit is one atomic step, and event numbers are given in commit order.
- SSH, SFTP, subprocesses, signals, tmux commands and shell scripts, beyond their visible effects.
- The scan of the local directory: ignore patterns, size and binary checks are an arbitrary function of path and content.
- Directories, permissions and partial reads of files; a failed remote write may leave any content in its file.
- Terminal observation cursors, payloads of events, summaries, diffs and approval texts.
- Regular-expression checks of commands, fnmatch semantics and redaction.
- HTTP routes, the command line, model providers, schemas, traces, context compaction, secrets and tokens.
