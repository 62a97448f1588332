/** What every step of a detached task keeps, and what that gives over all runs, crashes and restarts.
    The invariant is stated over the persisted text, so that only the two steps that commit a row have to
    look at the log table. */
module DetachedTaskSafety {
  import opened Model
  import opened LogStore
  import opened DetachedTask

  // ---- Invariant

  /** The status file is only ever renamed into place, after the command has exited. */
  ghost predicate LauncherInv(s: State) {
    && (s.status.Some? <==> s.launcher.Finished?)
    && (s.status.Some? ==> s.status.value == s.launcher.code)
    && s.exitLength <= |LogText(s)|
    && (s.launcher.Running? ==> s.log.Some?)
    && (s.launcher.Starting? ==> s.log == None)
    && (s.kind == Local && (s.launcher.Exited? || s.launcher.Staged? || s.launcher.Finished?) ==> s.log.Some?)
  }

  /** A live tailer continues exactly where the persisted text ends. */
  ghost predicate TailInv(t: Tail, text: string, log: string, kind: Kind) {
    t.Tail? ==>
      && (t.pc.Emitting? ==>
            && t.pc.chunk != "" && t.pc.recordOffset == |text| && text + t.pc.chunk <= log
            && t.offset == |text| + |t.pc.chunk|
            && (t.pc.next == AtHead || t.pc.next == CheckingStatus || t.pc.next.Draining? || t.pc.next.Resolved?))
      && (!t.pc.Emitting? && !t.pc.Stopped? ==> t.offset == |text|)
      && (!t.pc.Stopped? ==> t.counter == t.offset)
      && (kind == Local && !t.holdsLog ==> !t.pc.Emitting?)
  }

  /** `length` characters cover everything written before the command exited, unless the final drain could
      not read the log: then they are what was there before it. */
  ghost predicate Drained(s: State, length: nat, from: nat, saw: bool) {
    if saw then s.exitLength <= length else length == from
  }

  /** What has been found stays true: a recorded code is the one in the status file, a launcher that was
      killed or had finished is still that. */
  ghost predicate Holds(s: State, found: Finding) {
    match found
    case Recorded(code) => s.status == Some(code)
    case Unreadable => s.status.Some?
    case ReportedDead(launcher) => Follows(launcher, s.launcher)
  }

  predicate Follows(before: Launcher, now: Launcher) {
    (before.Finished? ==> now == before) && (before == Killed ==> now == Killed)
  }

  /** A code on its way to completion is the recorded one, and completion follows the final drain. */
  ghost predicate CompletionInv(s: State) {
    && (s.tail.Tail? ==> PendingInv(s, s.tail) && (s.tail.holdsLog ==> s.log.Some?))
    && (s.watcher.Deciding? ==> s.tail.Tail? && s.tail.pc.Resolved? && CodeOf(s.tail.pc.found) == s.watcher.exitCode)
  }

  ghost predicate PendingInv(s: State, t: Tail)
    requires t.Tail?
  {
    var pc := if t.pc.Emitting? then t.pc.next else t.pc;
    && (pc.Draining? ==> Holds(s, pc.found) && (s.kind == Ssh || !t.holdsLog ==> pc.from == t.offset))
    && (pc.Resolved? ==> Holds(s, pc.found) && (pc.found.Recorded? ==> Drained(s, t.offset, pc.from, pc.saw)))
  }

  ghost predicate OutcomeInv(s: State, text: string) {
    && (s.task.state == SUCCEEDED ==> s.task.exitCode == Some(0) && s.status == Some(0))
    && (s.task.state == FAILED ==>
          && s.status.Some?
          && s.task.exitCode != Some(0)
          && (if s.task.exitCode.Some? then s.task.exitCode == s.status else s.task.writer.StartupRecovery?))
    && (s.task.state == LOST ==> s.task.writer.LiveWatcher? || s.task.writer.LostAtStartup?)
    && (s.task.exitCode.Some? ==> s.task.exitCode == s.status)
    && (s.task.state == PREPARING ==> !s.task.hasBackendRef)
    && WriterInv(s, text)
  }

  ghost predicate WriterInv(s: State, text: string) {
    match s.task.writer
    case Unfinished => true
    case LiveWatcher(found, from, saw) =>
      && Holds(s, found)
      && s.task.exitCode == CodeOf(found)
      && s.task.state in {CANCELLED, if found.Recorded? then (if found.code == 0 then SUCCEEDED else FAILED) else LOST}
      && !s.watcher.Registering?
      && (s.tail.Tail? ==> s.tail.pc.Resolved?)
      && (found.Recorded? ==> Drained(s, |text|, from, saw))
    case StartupRecovery(persisted) =>
      && (s.task.state == SUCCEEDED || s.task.state == FAILED)
      && s.tail == NoTail && s.watcher == NoWatcher && persisted == |text|
    case LostAtStartup(launcher) =>
      && s.task.state == LOST && Follows(launcher, s.launcher)
      && (s.task.exitCode.Some? ==> launcher.Finished?)
  }

  /** A runtime that is down holds nothing. */
  ghost predicate DownInv(s: State) {
    !s.up ==> s.tail == NoTail && s.watcher == NoWatcher
  }

  ghost predicate Good(s: State, text: string) {
    && LauncherInv(s)
    && text <= LogText(s)
    && TailInv(s.tail, text, LogText(s), s.kind)
    && CompletionInv(s)
    && OutcomeInv(s, text)
    && DownInv(s)
  }

  function Mine(s: State): seq<LogRow> {
    TaskRows(s.rows, s.id)
  }

  ghost predicate Inv(s: State) {
    Contiguous(Mine(s)) && Good(s, Text(Mine(s)))
  }

  // ---- One step

  predicate OfLauncher(a: Action) {
    a.OpenLog? || a.LogGrows? || a.CommandExits? || a.StageStatus? || a.RenameStatus? || a.KillLauncher?
  }

  predicate OfTail(a: Action) {
    a.TailRead? || a.TailCommit? || a.TailCheckStatus? || a.TailCheckAlive? || a.TailDrain? || a.TailStops?
  }

  lemma LauncherKeeps(s: State, a: Action, text: string)
    requires Good(s, text) && OfLauncher(a)
    ensures Good(LauncherStep(s, a), text)
  {
    assert LogText(s) <= LogText(LauncherStep(s, a));
  }

  lemma NextChunkExtends(s: State, text: string)
    requires text <= LogText(s)
    ensures text + NextChunk(s, |text|) <= LogText(s)
    ensures s.kind == Ssh ==> text + NextChunk(s, |text|) == LogText(s)
    ensures NextChunk(s, |text|) == "" ==> text == LogText(s)
  {
  }

  lemma ReadKeeps(s: State, a: Action, text: string)
    requires Good(s, text) && (a.TailRead? || a.TailDrain?)
    ensures Good(TailStep(s, a), text)
  {
    NextChunkExtends(s, text);
  }

  lemma CheckKeeps(s: State, a: Action, text: string)
    requires Good(s, text) && (a.TailCheckStatus? || a.TailCheckAlive? || a.TailStops?)
    ensures Good(TailStep(s, a), text)
  {
  }

  lemma CommitKeeps(s: State, text: string)
    requires Good(s, text) && s.tail.Tail? && s.tail.pc.Emitting?
    ensures Good(TailStep(s, TailCommit), text + s.tail.pc.chunk)
  {
  }

  lemma WatcherKeeps(s: State, a: Action, text: string)
    requires Good(s, text) &&
               (a.StoreRunning? || a.WatcherWakes? || a.WatcherStores? || a.CancelStores? ||
                   a.CancelTimesOut? || a.Crash? || a.ReconnectRaises?)
    ensures Good(RuntimeStep(s, a), text)
  {
  }

  lemma GivenUpKeeps(s: State, text: string)
    requires Good(s, text)
    ensures Good(GivenUp(s), text)
  {
  }

  lemma FinalisedKeeps(s: State, code: Option<int>, text: string)
    requires Good(s, text) && s.tail == NoTail && s.watcher == NoWatcher
    requires s.status.Some? && (code == s.status || code == None)
    ensures Good(s.(task := Stored(if code == Some(0) then SUCCEEDED else FAILED, code, true, StartupRecovery(|text|))),
                 text)
  {
  }

  lemma ReconnectedKeeps(s: State, text: string)
    requires Good(s, text) && s.up && RecoverableState(s.task.state)
    ensures Good(s.(tail := Tail(AtHead, |text|, |text|, false), watcher := Registering(true)), text)
  {
  }

  lemma RestartKeeps(s: State, probe: Probe, text: string)
    requires Good(s, text) && ResumeOffset(s.rows, s.id) == |text|
    ensures Good(RuntimeStep(s, Restart(probe)), text)
  {
    if !s.up {
      var woken := s.(up := true);
      assert Good(woken, text);
      var code := if probe.readable then s.status else None;
      GivenUpKeeps(woken, text);
      if s.status.Some? {
        FinalisedKeeps(woken, code, text);
        GivenUpKeeps(woken.(task := Stored(if code == Some(0) then SUCCEEDED else FAILED, code, true,
                                           StartupRecovery(|text|))), text);
      }
      if RecoverableState(s.task.state) { ReconnectedKeeps(woken, text); }
    }
  }

  lemma StepKeeps(s: State, a: Action)
    requires Inv(s)
    ensures Inv(Step(s, a))
    ensures Text(Mine(s)) <= Text(Mine(Step(s, a)))
  {
    if a.TailCommit? { CommitStepKeeps(s); } else { QuietStepKeeps(s, a); }
  }

  /** Only `TailCommit` touches the rows of this task. */
  lemma QuietStepKeeps(s: State, a: Action)
    requires Inv(s) && !a.TailCommit?
    ensures Inv(Step(s, a))
    ensures Mine(Step(s, a)) == Mine(s)
  {
    if OfLauncher(a) {
      LauncherKeeps(s, a, Text(Mine(s)));
      SameRowsKeep(s, LauncherStep(s, a));
    } else if OfTail(a) {
      QuietTailStepIsGood(s, a, Text(Mine(s)));
      SameRowsKeep(s, TailStep(s, a));
    } else {
      QuietRuntimeStepKeeps(s, a);
    }
  }

  lemma QuietTailStepIsGood(s: State, a: Action, text: string)
    requires Good(s, text) && OfTail(a) && !a.TailCommit?
    ensures Good(TailStep(s, a), text) && TailStep(s, a).rows == s.rows && TailStep(s, a).id == s.id
  {
    if a.TailRead? || a.TailDrain? { ReadKeeps(s, a, text); } else { CheckKeeps(s, a, text); }
  }

  lemma SameRowsKeep(s: State, s': State)
    requires Contiguous(Mine(s)) && s'.rows == s.rows && s'.id == s.id && Good(s', Text(Mine(s)))
    ensures Inv(s') && Mine(s') == Mine(s)
  {
  }

  lemma QuietRuntimeStepKeeps(s: State, a: Action)
    requires Inv(s) && !OfLauncher(a) && !OfTail(a)
    ensures Inv(Step(s, a))
    ensures Mine(Step(s, a)) == Mine(s)
  {
    if a.OtherTaskCommits? {
      TaskRowsSnoc(s.rows, a.row, s.id);
    } else {
      QuietRuntimeStepIsGood(s, a, Text(Mine(s)));
      assert Mine(Step(s, a)) == Mine(s);
    }
  }

  lemma QuietRuntimeStepIsGood(s: State, a: Action, text: string)
    requires Contiguous(Mine(s)) && text == Text(Mine(s)) && Good(s, text)
    requires !OfLauncher(a) && !OfTail(a) && !a.OtherTaskCommits?
    ensures Good(Step(s, a), text) && Step(s, a).rows == s.rows && Step(s, a).id == s.id
  {
    if a.Restart? {
      ResumeIsTextLength(s.rows, s.id);
      RestartKeeps(s, a.probe, text);
    } else {
      WatcherKeeps(s, a, text);
    }
  }

  lemma CommitStepKeeps(s: State)
    requires Inv(s)
    ensures Inv(Step(s, TailCommit))
    ensures Text(Mine(s)) <= Text(Mine(Step(s, TailCommit)))
  {
    if s.tail.Tail? && s.tail.pc.Emitting? {
      var row := LogRow(s.id, "stdout", s.tail.pc.recordOffset, s.tail.pc.chunk);
      TaskRowsSnoc(s.rows, row, s.id);
      TextSnoc(Mine(s), row);
      ContiguousSnoc(Mine(s), row);
      CommitKeeps(s, Text(Mine(s)));
    }
  }

  lemma {:induction false} RunKeeps(s: State, actions: seq<Action>)
    requires Inv(s)
    ensures Inv(Run(s, actions))
    ensures Text(Mine(s)) <= Text(Mine(Run(s, actions)))
    decreases |actions|
  {
    if actions != [] {
      StepKeeps(s, actions[0]);
      RunKeeps(Step(s, actions[0]), actions[1..]);
    }
  }

  /** A state that some run of a freshly started task reaches. */
  ghost predicate Reachable(s: State) {
    exists kind, id, rows, actions :: TaskRows(rows, id) == [] && s == Run(Started(kind, id, rows), actions)
  }

  lemma ReachableInv(s: State)
    requires Reachable(s)
    ensures Inv(s)
  {
    var kind, id, rows, actions :|
      TaskRows(rows, id) == [] && s == Run(Started(kind, id, rows), actions);
    RunKeeps(Started(kind, id, rows), actions);
  }

  lemma Continue(s: State, a: Action) returns (s': State)
    requires Reachable(s)
    ensures Reachable(s') && s' == Step(s, a)
  {
    var kind, id, rows, actions :|
      TaskRows(rows, id) == [] && s == Run(Started(kind, id, rows), actions);
    s' := Step(s, a);
    RunSnoc(Started(kind, id, rows), actions, a);
    assert s' == Run(Started(kind, id, rows), actions + [a]);
  }

  lemma ReachableRun(s: State, actions: seq<Action>)
    requires Reachable(s)
    ensures Reachable(Run(s, actions))
  {
    var kind, id, rows, before :|
      TaskRows(rows, id) == [] && s == Run(Started(kind, id, rows), before);
    RunConcat(Started(kind, id, rows), before, actions);
    assert Run(s, actions) == Run(Started(kind, id, rows), before + actions);
  }

  // ---- Output: nothing twice, nothing skipped

  /** In offset order the records of the task tile a prefix of its log file, and the resume point is the
      length of that prefix. */
  lemma RecordsTileThePrefix(s: State)
    requires Reachable(s)
    ensures Contiguous(GetTaskLogs(s.rows, s.id))
    ensures Persisted(s) <= LogText(s)
    ensures ResumeOffset(s.rows, s.id) == |Persisted(s)|
  {
    ReachableInv(s);
    ResumeIsTextLength(s.rows, s.id);
  }

  /** Whatever happens next, crashes and restarts included, persisted output is only ever extended. */
  lemma PersistedOnlyGrows(s: State, actions: seq<Action>)
    requires Reachable(s)
    ensures Persisted(s) <= Persisted(Run(s, actions))
  {
    ReachableInv(s);
    RunKeeps(s, actions);
    PersistedIsMine(s);
    PersistedIsMine(Run(s, actions));
  }

  lemma PersistedIsMine(s: State)
    requires Inv(s)
    ensures Persisted(s) == Text(Mine(s))
  {
    ResumeIsTextLength(s.rows, s.id);
  }

  /** No step of this task, however it is interleaved, adds a row to another task. */
  lemma OtherTasksUntouched(s: State, a: Action, other: string)
    requires other != s.id && !a.OtherTaskCommits?
    ensures TaskRows(Step(s, a).rows, other) == TaskRows(s.rows, other)
  {
    if a.TailCommit? && s.tail.Tail? && s.tail.pc.Emitting? {
      TaskRowsSnoc(s.rows, LogRow(s.id, "stdout", s.tail.pc.recordOffset, s.tail.pc.chunk), other);
    }
  }
}
