/** Concrete runs of a detached task that show what the code does not give. */
module DetachedTaskRuns {
  import opened Model
  import opened LogStore
  import opened DetachedTask
  import opened DetachedTaskSafety

  lemma Begin(kind: Kind) returns (s: State)
    ensures Reachable(s)
    ensures s == Started(kind, "t", []).(task := Stored(RUNNING, None, true, Unfinished), watcher := Waiting(false))
  {
    var s0 := Started(kind, "t", []);
    assert s0 == Run(s0, []);
    s := Continue(s0, StoreRunning);
  }

  /** The launcher opens the log and the command writes `x`. */
  lemma CommandWrites(s: State) returns (s': State)
    requires Reachable(s) && s.launcher == Starting
    ensures Reachable(s') && s' == s.(launcher := Running, log := Some("x"))
  {
    s' := Continue(s, OpenLog);
    s' := Continue(s', LogGrows("x"));
    assert "" + "x" == "x";
  }

  /** The launcher's part of a run: it opens the log, writes `x`, exits 0 and records that. */
  lemma LauncherSucceeds(s: State) returns (s': State)
    requires Reachable(s) && s.launcher == Starting
    ensures Reachable(s')
    ensures s' == s.(launcher := Finished(0), log := Some("x"), exitLength := 1, status := Some(0))
  {
    s' := CommandWrites(s);
    s' := Continue(s', CommandExits(0));
    s' := Continue(s', StageStatus);
    s' := Continue(s', RenameStatus);
  }

  lemma WatcherFinishes(s: State) returns (s': State)
    requires Reachable(s) && s.watcher == Waiting(false) && s.tail.Tail? && s.tail.pc.Resolved?
    requires s.task.state == RUNNING
    ensures Reachable(s')
    ensures s' == s.(watcher := NoWatcher,
                     task := Stored(WatcherVerdict(false, RUNNING, CodeOf(s.tail.pc.found)), CodeOf(s.tail.pc.found),
                                    s.task.hasBackendRef, LiveWatcher(s.tail.pc.found, s.tail.pc.from, s.tail.pc.saw)))
  {
    s' := Continue(s, WatcherWakes);
    s' := Continue(s', WatcherStores);
  }

  /** A read at the head of the loop that finds no log. */
  lemma TailMissesLog(s: State) returns (s': State)
    requires Reachable(s) && s.log == None && s.tail == Tail(AtHead, 0, 0, false)
    ensures Reachable(s') && s' == s.(tail := Tail(CheckingStatus, 0, 0, false))
  {
    s' := Continue(s, TailRead(true));
  }

  /** A final drain that does not read the log: the local tailer never opened it, or the stat fails. */
  lemma TailResolvesBlind(s: State, found: Finding) returns (s': State)
    requires Reachable(s) && s.tail == Tail(Draining(found, 0), 0, 0, false)
    ensures Reachable(s') && s' == s.(tail := Tail(Resolved(found, 0, false), 0, 0, false))
  {
    s' := Continue(s, TailDrain(false));
  }

  /** The whole log is written between the tailer's failed open and its status check: SUCCEEDED is stored
      and not one byte of output. */
  lemma UnopenedLogIsLost() returns (s: State)
    ensures Reachable(s)
    ensures s.kind == Local && s.task.state == SUCCEEDED && s.task.writer.LiveWatcher?
    ensures LogText(s) == "x" && Persisted(s) == ""
  {
    s := StatusFoundUnread(Local);
    s := TailResolvesBlind(s, Recorded(0));
    s := WatcherFinishes(s);
  }

  /** The stat of the log fails in the final drain over SFTP: SUCCEEDED is stored and not one byte of output. */
  lemma FailedStatLosesOutput() returns (s: State)
    ensures Reachable(s)
    ensures s.kind == Ssh && s.task.state == SUCCEEDED && s.task.writer.LiveWatcher?
    ensures LogText(s) == "x" && Persisted(s) == ""
  {
    s := StatusFoundUnread(Ssh);
    s := TailResolvesBlind(s, Recorded(0));
    s := WatcherFinishes(s);
  }

  /** The tailer has found a recorded 0 and read nothing yet. */
  lemma StatusFoundUnread(kind: Kind) returns (s: State)
    ensures Reachable(s) && s.kind == kind && s.log == Some("x") && s.rows == [] && s.id == "t"
    ensures s.watcher == Waiting(false) && s.task.state == RUNNING &&
              s.tail == Tail(Draining(Recorded(0), 0), 0, 0, false)
  {
    s := Begin(kind);
    s := TailMissesLog(s);
    s := LauncherSucceeds(s);
    s := Continue(s, TailCheckStatus(true, true));
  }

  /** The shell launcher records an exit without ever having opened the log: its working directory is missing. */
  lemma ExitsWithoutLog() returns (s: State)
    ensures Reachable(s) && s.kind == Ssh && s.launcher == Finished(127) && s.status == Some(127) && s.log == None
  {
    s := Begin(Ssh);
    s := Continue(s, CommandExits(127));
    s := Continue(s, StageStatus);
    s := Continue(s, RenameStatus);
  }

  /** The launcher records 0 while the runtime is down. */
  lemma FinishesWhileDown() returns (s: State)
    ensures Reachable(s) && !s.up && s.tail == NoTail && s.watcher == NoWatcher && s.kind == Ssh
    ensures s.launcher == Finished(0) && s.log == Some("x") && s.status == Some(0) && s.rows == [] && s.id == "t"
    ensures s.task == Stored(RUNNING, None, true, Unfinished)
  {
    s := Begin(Ssh);
    s := Continue(s, Crash);
    s := LauncherSucceeds(s);
  }

  /** The task finishes while the runtime is down: SUCCEEDED with the output missing. */
  lemma FinishedWhileDownIsNotDrained() returns (s: State)
    ensures Reachable(s)
    ensures s.task.state == SUCCEEDED && s.task.writer == StartupRecovery(0)
    ensures LogText(s) == "x" && Persisted(s) == ""
  {
    s := FinishesWhileDown();
    s := Continue(s, Restart(Probe(false, true, true, true, false)));
  }

  /** The same, and publishing that outcome raises: LOST is stored over it, with the recorded code 0. */
  lemma LostWithRecordedCode() returns (s: State)
    ensures Reachable(s)
    ensures s.task.state == LOST && s.task.exitCode == Some(0) == s.status
    ensures s.task.writer == LostAtStartup(Finished(0))
  {
    s := FinishesWhileDown();
    s := Continue(s, Restart(Probe(false, true, true, true, true)));
  }

  /** The status file appears between the status check and the liveness check: LOST, although the launcher
      recorded success. */
  lemma LostCanBePessimistic() returns (s: State)
    ensures Reachable(s)
    ensures s.task.state == LOST && s.status == Some(0) && s.task.writer.LiveWatcher?
  {
    s := StatusComesTooLate();
    s := TailResolvesBlind(s, ReportedDead(Finished(0)));
    s := WatcherFinishes(s);
  }

  /** The tailer has found no log and no status file, since the launcher has not begun. */
  lemma NoStatusFound(kind: Kind) returns (s: State)
    ensures Reachable(s) && s.kind == kind && s.launcher == Starting && s.status == None
    ensures s.watcher == Waiting(false) && s.task.state == RUNNING && s.tail == Tail(CheckingAlive, 0, 0, false)
  {
    s := Begin(kind);
    s := TailMissesLog(s);
    s := Continue(s, TailCheckStatus(true, true));
  }

  /** The status appears between the tailer's two checks, so it takes the finished process for a dead one. */
  lemma StatusComesTooLate() returns (s: State)
    ensures Reachable(s) && s.kind == Local && s.status == Some(0)
    ensures s.watcher == Waiting(false) && s.task.state == RUNNING
    ensures s.tail == Tail(Draining(ReportedDead(Finished(0)), 0), 0, 0, false)
  {
    s := NoStatusFound(Local);
    s := LauncherSucceeds(s);
    s := Continue(s, TailCheckAlive(false));
  }

  /** The status file is found but cannot be read: LOST without any race. */
  lemma UnreadableStatusIsLost() returns (s: State)
    ensures Reachable(s)
    ensures s.task.state == LOST && s.status == Some(0) && s.task.writer.LiveWatcher? &&
              s.task.writer.found == Unreadable
  {
    s := Begin(Local);
    s := TailMissesLog(s);
    s := LauncherSucceeds(s);
    s := Continue(s, TailCheckStatus(true, false));
    s := TailResolvesBlind(s, Unreadable);
    s := WatcherFinishes(s);
  }

  /** A connection error answers for the process that it is dead: LOST while the command runs. */
  lemma LostWhileRunning() returns (s: State)
    ensures Reachable(s)
    ensures s.kind == Ssh && s.task.state == LOST && s.launcher == Running
  {
    s := ProbeFails();
    s := TailResolvesBlind(s, ReportedDead(Running));
    s := WatcherFinishes(s);
  }

  lemma ProbeFails() returns (s: State)
    ensures Reachable(s) && s.kind == Ssh && s.launcher == Running
    ensures s.watcher == Waiting(false) && s.task.state == RUNNING
    ensures s.tail == Tail(Draining(ReportedDead(Running), 0), 0, 0, false)
  {
    s := NoStatusFound(Ssh);
    s := CommandWrites(s);
    s := Continue(s, TailCheckAlive(false));
  }
}
