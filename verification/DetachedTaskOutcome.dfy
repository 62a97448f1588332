/** What a stored outcome of a detached task says about the launcher and about the persisted output. */
module DetachedTaskOutcome {
  import opened Model
  import opened LogStore
  import opened DetachedTask
  import opened DetachedTaskSafety

  /** A stored outcome never contradicts the status file: SUCCEEDED means the launcher recorded 0, FAILED
      with a code means it recorded that non-zero code, and FAILED without one is the mark startup
      recovery leaves when the status file is there but cannot be read.  A stored code is in every state the
      recorded one, also under LOST, where startup recovery left it. */
  lemma OutcomeIsTheRecordedOne(s: State)
    requires Reachable(s)
    ensures s.task.state == SUCCEEDED ==> s.launcher == Finished(0) && s.status == Some(0) && s.task.exitCode == Some(0)
    ensures s.task.state == FAILED && s.task.exitCode.Some? ==>
              s.task.exitCode.value != 0 && s.launcher == Finished(s.task.exitCode.value)
    ensures s.task.state == FAILED && s.task.exitCode == None ==>
              s.status.Some? && s.task.writer.StartupRecovery?
    ensures s.task.exitCode.Some? ==> s.launcher == Finished(s.task.exitCode.value) && s.task.exitCode == s.status
    ensures s.task.state == LOST && s.task.exitCode.Some? ==> s.task.writer == LostAtStartup(s.launcher)
  {
    ReachableInv(s);
  }

  // ---- Is the output complete?

  /** When a live watcher has stored an exit code, everything the command wrote before it exited is persisted
      if and only if the final drain could read the log (the local tailer held it open, the stat over SFTP
      succeeded), or nothing was left to read when that drain began. */
  lemma LiveOutcomeIsComplete(s: State)
    requires Reachable(s) && s.task.writer.LiveWatcher? && (s.task.state == SUCCEEDED || s.task.state == FAILED)
    ensures s.exitLength <= |Persisted(s)| <==> s.task.writer.saw || s.exitLength <= s.task.writer.from
    ensures |LogText(s)| == s.exitLength ==>
              (Persisted(s) == LogText(s) <==> s.task.writer.saw || s.exitLength <= s.task.writer.from)
  {
    ReachableInv(s);
    ResumeIsTextLength(s.rows, s.id);
  }

  /** When startup recovery has stored the outcome, the same holds if and only if it held of what was
      persisted when the runtime came up: the resume offset reaches the length the log had at the exit. */
  lemma RecoveredOutcomeIsComplete(s: State)
    requires Reachable(s) && s.task.writer.StartupRecovery?
    ensures s.exitLength <= |Persisted(s)| <==> s.exitLength <= s.task.writer.persisted
    ensures |LogText(s)| == s.exitLength ==> (Persisted(s) == LogText(s) <==> s.exitLength <= s.task.writer.persisted)
  {
    ReachableInv(s);
    ResumeIsTextLength(s.rows, s.id);
  }

  /** Startup recovery persists nothing, and starts no tailer where it finalises. */
  lemma RecoveryDoesNotDrain(s: State, probe: Probe)
    ensures var after := Step(s, Restart(probe));
            && Persisted(after) == Persisted(s) && after.exitLength == s.exitLength
            && (after.task.writer.StartupRecovery? && !s.task.writer.StartupRecovery? ==> after.tail == s.tail)
  {
    RestartLeavesRows(s, probe);
  }

  /** And `persisted` is the resume offset at that restart. */
  lemma RecoveryRecordsResumeOffset(s: State, probe: Probe)
    requires Reachable(s) && Step(s, Restart(probe)).task.writer.StartupRecovery? && !s.task.writer.StartupRecovery?
    ensures Step(s, Restart(probe)).task.writer.persisted == ResumeOffset(s.rows, s.id) == |Persisted(s)|
    ensures Persisted(Step(s, Restart(probe))) == Persisted(s)
  {
    RecordsTileThePrefix(s);
    RecoveryDoesNotDrain(s, probe);
    RestartLeavesRows(s, probe);
  }

  lemma RestartLeavesRows(s: State, probe: Probe)
    ensures var after := Step(s, Restart(probe));
            && after.rows == s.rows && after.id == s.id
            && (after.task.writer.StartupRecovery? && !s.task.writer.StartupRecovery? ==>
                  after.task.writer.persisted == ResumeOffset(s.rows, s.id))
  {
  }

  // ---- Is LOST right?

  /** No exit code has been recorded, and none will be. */
  ghost predicate NeverRecords(s: State) {
    forall actions: seq<Action> :: Run(s, actions).status == None
  }

  lemma {:induction false} KilledStays(s: State, actions: seq<Action>)
    requires s.launcher == Killed && s.status == None
    ensures Run(s, actions).status == None
    decreases |actions|
  {
    if actions != [] { KilledStays(Step(s, actions[0]), actions[1..]); }
  }

  lemma RunOne(s: State, a: Action)
    ensures Run(s, [a]) == Step(s, a)
  {
    assert [a][1..] == [];
  }

  /** A launcher that was not killed can still record a code. */
  lemma {:induction false} CanStillRecord(s: State) returns (actions: seq<Action>)
    requires LauncherInv(s) && s.launcher != Killed
    ensures Run(s, actions).status.Some?
    decreases match s.launcher
              case Starting => 4 case Running => 3 case Exited(_) => 2 case Staged(_) => 1 case _ => 0
  {
    if s.launcher.Finished? {
      actions := [];
    } else {
      var a := match s.launcher
        case Starting => OpenLog
        case Running => CommandExits(0)
        case Exited(_) => StageStatus
        case _ => RenameStatus;
      var rest := CanStillRecord(Step(s, a));
      actions := [a] + rest;
      RunConcat(s, [a], rest);
      RunOne(s, a);
    }
  }

  lemma NeverRecordsIff(s: State)
    requires LauncherInv(s)
    ensures NeverRecords(s) <==> s.launcher == Killed
  {
    if s.launcher == Killed {
      forall actions: seq<Action> ensures Run(s, actions).status == None { KilledStays(s, actions); }
    } else {
      var actions := CanStillRecord(s);
    }
  }

  /** The launcher is still on its way to a status file. */
  predicate Alive(launcher: Launcher) {
    launcher != Killed && !launcher.Finished?
  }

  /** Where the launcher was when its task was given up: reported dead, or not reclaimed at startup. */
  function LauncherThen(w: Writer): Option<Launcher> {
    match w
    case LiveWatcher(ReportedDead(launcher), _, _) => Some(launcher)
    case LostAtStartup(launcher) => Some(launcher)
    case _ => None
  }

  /** A live watcher stores LOST if and only if its tailer ended without a code: the status file was found but
      not readable, or was not found and the process reported dead. */
  lemma LiveLostIff(s: State)
    requires Reachable(s) && s.task.writer.LiveWatcher? && s.task.state != CANCELLED
    ensures s.task.state == LOST <==> s.task.writer.found.Unreadable? || s.task.writer.found.ReportedDead?
    ensures s.task.state != LOST <==> s.task.writer.found.Recorded? && s.status == Some(s.task.writer.found.code)
  {
    ReachableInv(s);
  }

  /** A watcher stores CANCELLED if and only if the task was CANCELLING when it woke and it is not one that startup
      started, whatever is stored between its reading and its storing. */
  lemma CancelledByWatcherIff(s: State, between: seq<Action>)
    requires s.watcher.Waiting? && s.tail.Tail? && s.tail.pc.Resolved?
    requires forall a :: a in between ==> OfLauncher(a) || a.OtherTaskCommits? || a.CancelStores?
    ensures var end := Step(Run(Step(s, WatcherWakes), between), WatcherStores);
            && end.watcher == NoWatcher && end.task.exitCode == CodeOf(s.tail.pc.found)
            && (end.task.state == CANCELLED <==> s.task.state == CANCELLING && !s.watcher.reconnected)
  {
    DecidedStays(Step(s, WatcherWakes), between);
  }

  lemma {:induction false} DecidedStays(s: State, between: seq<Action>)
    requires forall a :: a in between ==> OfLauncher(a) || a.OtherTaskCommits? || a.CancelStores?
    ensures Run(s, between).watcher == s.watcher && Run(s, between).tail == s.tail
    decreases |between|
  {
    if between != [] {
      assert between[0] in between;
      DecidedStays(Step(s, between[0]), between[1..]);
    }
  }

  /** A stored LOST is right for good if and only if the task was given up on a launcher that was killed by
      then, or on one wrongly believed dead that has been killed since.  It is contradicted by the status file
      if and only if the file was found but not readable, or the launcher had finished by then, or it was
      wrongly believed dead and has finished since. */
  lemma LostIsRightIff(s: State)
    requires Reachable(s) && s.task.state == LOST
    ensures NeverRecords(s) <==>
              LauncherThen(s.task.writer).Some? &&
              var before := LauncherThen(s.task.writer).value;
              before == Killed || (Alive(before) && s.launcher == Killed)
    ensures s.status.Some? <==>
              (LauncherThen(s.task.writer) == None ||
               var before := LauncherThen(s.task.writer).value;
               before.Finished? || (Alive(before) && s.launcher.Finished?))
  {
    ReachableInv(s);
    NeverRecordsIff(s);
  }

  /** So when the process is reported dead only if it is, LOST is right if and only if the launcher was killed,
      and otherwise the status file contradicts it. */
  lemma LostWithTruthfulProcessProbe(s: State)
    requires Reachable(s) && s.task.state == LOST
    requires LauncherThen(s.task.writer).Some? ==> !Alive(LauncherThen(s.task.writer).value)
    ensures NeverRecords(s) <==> LauncherThen(s.task.writer) == Some(Killed)
    ensures s.status.Some? <==> LauncherThen(s.task.writer) != Some(Killed)
  {
    LostIsRightIff(s);
  }

  /** Truthful probes with nothing happening between them make the tailer give up exactly the tasks that will
      never record a code: what remains are wrong answers, and a status file appearing between the two. */
  lemma TruthfulChecksAreRight(s: State)
    requires Reachable(s) && s.tail.Tail? && s.tail.pc == CheckingStatus
    ensures var t := Step(Step(s, TailCheckStatus(true, true)), TailCheckAlive(Alive(s.launcher))).tail;
            && t.Tail?
            && (t.pc.Draining? && t.pc.found.Recorded? <==> s.status.Some?)
            && (t.pc.Draining? && !t.pc.found.Recorded? <==> NeverRecords(s))
            && (t.pc == AtHead <==> s.status == None && !NeverRecords(s))
  {
    ReachableInv(s);
    NeverRecordsIff(s);
  }

  // ---- Who stores what

  /** Who changes the stored state: `start` and a reconnection store RUNNING; a watcher that has decided stores its
      verdict, a cancel of a running runtime CANCELLING or CANCELLED; everything else is startup, of a runtime
      that was down, or a reconnection that could not be published. */
  lemma StateChangedBy(s: State, a: Action)
    requires Step(s, a).task.state != s.task.state
    ensures match a
            case StoreRunning => s.watcher.Registering? && Step(s, a).task.state == RUNNING
            case WatcherStores => s.watcher.Deciding?
            case CancelStores(finished) => s.up && Step(s, a).task.state == if finished then CANCELLED else CANCELLING
            case Restart(_) => !s.up && RecoverableState(s.task.state)
            case ReconnectRaises => s.watcher == Registering(true) && Step(s, a).task.state == LOST
            case _ => false
  {
  }

  /** A cancel whose wait runs out before the tailer has resolved ends the watcher: from then on until the next
      restart only cancels change what is stored. */
  lemma TimedOutCancelEndsWatcher(s: State, actions: seq<Action>)
    requires s.watcher == Waiting(false) && s.tail.Tail? && !s.tail.pc.Resolved?
    requires forall a :: a in actions ==> !a.Restart?
    ensures var end := Run(Step(s, CancelTimesOut), actions).task;
            end.state in {s.task.state, CANCELLING, CANCELLED} && end.exitCode == s.task.exitCode
  {
    OnlyCancelsStore(Step(s, CancelTimesOut), actions);
  }

  lemma {:induction false} OnlyCancelsStore(s: State, actions: seq<Action>)
    requires s.watcher == NoWatcher && forall a :: a in actions ==> !a.Restart?
    ensures var end := Run(s, actions).task;
            end.state in {s.task.state, CANCELLING, CANCELLED} && end.exitCode == s.task.exitCode
    decreases |actions|
  {
    if actions != [] {
      assert actions[0] in actions;
      OnlyCancelsStore(Step(s, actions[0]), actions[1..]);
    }
  }

  // ---- Startup

  /** A task that was not yet stored as RUNNING cannot be reattached. */
  lemma NotYetRunningIsLost(s: State, probe: Probe)
    requires Reachable(s) && !s.up && s.task.state == PREPARING
    ensures Step(s, Restart(probe)).task.state == LOST
  {
    ReachableInv(s);
  }

  /** A task reattached as running is tailed from the resume offset; and if that can be published it is stored
      as RUNNING with a watcher, if not, as LOST without one while the tailer runs on. */
  lemma Reattached(s: State, probe: Probe)
    requires Reachable(s) && !s.up && RecoverableState(s.task.state) && s.task.hasBackendRef
    requires !probe.raises && (s.status == None || !Finds(s, probe.seen)) && probe.reportedAlive
    ensures var begun := Step(s, Restart(probe));
            && begun.tail == Tail(AtHead, |Persisted(s)|, |Persisted(s)|, false)
            && begun.task == s.task && begun.watcher == Registering(true)
  {
    RecordsTileThePrefix(s);
    ReattachedIs(s, probe, ResumeOffset(s.rows, s.id));
  }

  lemma ReattachedIs(s: State, probe: Probe, resume: nat)
    requires !s.up && RecoverableState(s.task.state) && s.task.hasBackendRef && resume == ResumeOffset(s.rows, s.id)
    requires !probe.raises && (s.status == None || !Finds(s, probe.seen)) && probe.reportedAlive
    ensures Step(s, Restart(probe)) ==
            s.(up := true, tail := Tail(AtHead, resume, resume, false), watcher := Registering(true))
  {
  }

  lemma ReattachedEnds(s: State)
    requires s.watcher == Registering(true)
    ensures var going, lost := Step(s, StoreRunning), Step(s, ReconnectRaises);
            && going.task.state == RUNNING && going.watcher == Waiting(true) && going.tail == s.tail
            && lost.task.state == LOST && lost.watcher == NoWatcher && lost.tail == s.tail
  {
  }

  /** Startup recovery stores LOST if and only if there is nothing to reattach to, or it raises (before it has
      looked, or in publishing the outcome it has stored), or the status file is not found and the process not
      reported alive. */
  lemma RestartLosesIff(s: State, probe: Probe)
    requires Reachable(s) && !s.up && RecoverableState(s.task.state)
    ensures Step(s, Restart(probe)).task.state == LOST <==>
              !s.task.hasBackendRef || probe.raises ||
                  (if s.status.Some? && Finds(s, probe.seen) then probe.publishRaises else !probe.reportedAlive)
    ensures s.task.hasBackendRef && !probe.raises && !probe.publishRaises && probe.seen &&
            probe.reportedAlive == Alive(s.launcher) ==>
              (Step(s, Restart(probe)).task.state == LOST <==> NeverRecords(s))
  {
    ReachableInv(s);
    NeverRecordsIff(s);
  }
}
