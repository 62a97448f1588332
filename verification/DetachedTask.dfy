/** A detached (persistent) task: the launcher, the tailer, the watcher and startup recovery as one
    transition system.  A transition is one action of one party between two of its await points, so a
    sequence of actions is an interleaving; an action that is not enabled leaves the state as it is.
    Output is one byte per character. */
module DetachedTask {
  import opened Model
  import opened LogStore

  const READ_SIZE: nat := 4096

  datatype Kind = Local | Ssh

  /** Where the launcher process is in `main`: it opens the log, runs the command, waits, writes a
      temporary status file and renames it into place. */
  datatype Launcher = Starting | Running | Exited(code: int) | Staged(code: int) | Finished(code: int) | Killed

  /** What `_check_completion` found: a code in the status file, a status file without a readable code, or no
      status file and a process reported dead (`launcher` is history: where the launcher really was). */
  datatype Finding = Recorded(code: int) | Unreadable | ReportedDead(launcher: Launcher)

  /** `_pending_exit_code`. */
  function CodeOf(found: Finding): Option<int> {
    if found.Recorded? then Some(found.code) else None
  }

  /** Where a tailer is in `_run`.  `Emitting` is the await inside `on_output`, before its commit.  `from` and
      `saw` are history: where the final drain began, and whether it could read the log file. */
  datatype Pc =
    | AtHead
    | Emitting(chunk: string, recordOffset: nat, next: Pc)
    | CheckingStatus
    | CheckingAlive
    | Draining(found: Finding, from: nat)
    | Resolved(found: Finding, from: nat, saw: bool)
    | Stopped

  /** `offset` is the position in the log file, `counter` the closure variable `offset_counter`, `holdsLog`
      whether the local tailer holds the log file. */
  datatype Tail = NoTail | Tail(pc: Pc, offset: nat, counter: nat, holdsLog: bool)

  /** `Registering` lasts from the start of the tailer to the creation of its watcher. */
  datatype Watcher =
    | NoWatcher
    | Registering(reconnected: bool)
    | Waiting(reconnected: bool)
    | Deciding(reconnected: bool, seen: TaskState, exitCode: Option<int>)

  /** Who wrote the stored outcome, and from what (history only; no step reads it).  `persisted` is how much
      output was persisted at the restart, `launcher` where the launcher was when the task was given up. */
  datatype Writer =
    | Unfinished
    | LiveWatcher(found: Finding, from: nat, saw: bool)
    | StartupRecovery(persisted: nat)
    | LostAtStartup(launcher: Launcher)

  datatype Stored = Stored(state: TaskState, exitCode: Option<int>, hasBackendRef: bool, writer: Writer)

  /** `log` and `status` are the two files, `exitLength` the length of the log when the command exited
      (history only), `rows` the whole log table. */
  datatype State = State(
    kind: Kind, launcher: Launcher, log: Option<string>, status: Option<int>, exitLength: nat,
    id: string, rows: seq<LogRow>, task: Stored, up: bool, tail: Tail, watcher: Watcher)

  function LogText(s: State): string {
    if s.log.Some? then s.log.value else ""
  }

  /** What the runtime has persisted of this task's output. */
  function Persisted(s: State): string {
    Text(GetTaskLogs(s.rows, s.id))
  }

  /** `start`: the task is stored as PREPARING, the launcher spawned, the tailer running. */
  function Started(kind: Kind, id: string, rows: seq<LogRow>): State {
    State(kind, Starting, None, None, 0, id, rows, Stored(PREPARING, None, false, Unfinished), true,
          Tail(AtHead, 0, 0, false), Registering(false))
  }

  datatype Action =
    // the launcher and the processes it started
    | OpenLog
    | LogGrows(data: string)
    | CommandExits(code: int)
    | StageStatus
    | RenameStatus
    | KillLauncher
    // other tasks of the same runtime
    | OtherTaskCommits(row: LogRow)
    // the tailer; `seen` is what a stat over SFTP answers for a file that is there
    | TailRead(seen: bool)
    | TailCommit
    | TailCheckStatus(seen: bool, readable: bool)
    | TailCheckAlive(reportedAlive: bool)
    | TailDrain(seen: bool)
    | TailStops
    // start, watcher and cancel
    | StoreRunning
    | WatcherWakes
    | WatcherStores
    | CancelStores(finished: bool)
    | CancelTimesOut
    // process death and startup
    | Crash
    | Restart(probe: Probe)
    | ReconnectRaises

  /** What reattaching at startup meets: it raises before it has looked (or the endpoint is gone), what the
      probes of the status file and of the process answer, and whether publishing a stored outcome raises. */
  datatype Probe = Probe(raises: bool, seen: bool, readable: bool, reportedAlive: bool, publishRaises: bool)

  // ---- Launcher (_launcher.py)

  function LauncherStep(s: State, a: Action): State
    requires a.OpenLog? || a.LogGrows? || a.CommandExits? || a.StageStatus? || a.RenameStatus? || a.KillLauncher?
  {
    match a
    case OpenLog =>
      if s.launcher == Starting then s.(launcher := Running, log := Some("")) else s
    case LogGrows(data) =>
      // the command, or a process it left behind
      if s.log.Some? then s.(log := Some(s.log.value + data)) else s
    case CommandExits(code) =>
      // the shell launcher exits before opening the log when its working directory is missing
      if s.launcher == Running || (s.launcher == Starting && s.kind == Ssh)
      then s.(launcher := Exited(code), exitLength := |LogText(s)|) else s
    case StageStatus =>
      if s.launcher.Exited? then s.(launcher := Staged(s.launcher.code)) else s
    case RenameStatus =>
      if s.launcher.Staged? then s.(launcher := Finished(s.launcher.code), status := Some(s.launcher.code)) else s
    case KillLauncher =>
      if s.launcher.Finished? then s else s.(launcher := Killed)
  }

  // ---- Tailer (`LocalDetachedHandle._run`, `SSHDetachedHandle._run`)

  /** The next unread bytes: at most 4096 for the local tailer, all of them for the SFTP one. */
  function NextChunk(s: State, offset: nat): string {
    var text := LogText(s);
    if |text| <= offset then ""
    else if s.kind == Local && offset + READ_SIZE < |text| then text[offset..offset + READ_SIZE]
    else text[offset..]
  }

  /** Is a file that is there found?  A stat over SFTP answers no to any error. */
  predicate Finds(s: State, seen: bool) {
    s.kind == Local || seen
  }

  /** Can the log file be read?  The local tailer reads what it holds open, the other asks each time. */
  predicate ReadsLog(s: State, holdsLog: bool, seen: bool) {
    if s.kind == Local then holdsLog else seen && s.log.Some?
  }

  function Emit(t: Tail, chunk: string, next: Pc): Tail
    requires t.Tail?
  {
    t.(pc := Emitting(chunk, t.counter, next), offset := t.offset + |chunk|, counter := t.counter + |chunk|)
  }

  function TailStep(s: State, a: Action): State
    requires a.TailRead? || a.TailCommit? || a.TailCheckStatus? || a.TailCheckAlive? || a.TailDrain? || a.TailStops?
  {
    if s.tail == NoTail then s else
    var t := s.tail;
    match a
    case TailRead(seen) =>
      if t.pc != AtHead then s else
      var t' := t.(holdsLog := t.holdsLog || s.log.Some?);
      var chunk := if ReadsLog(s, t'.holdsLog, seen) then NextChunk(s, t.offset) else "";
      if chunk == "" then s.(tail := t'.(pc := CheckingStatus))
      else s.(tail := Emit(t', chunk, if s.kind == Local then AtHead else CheckingStatus))
    case TailCommit =>
      if !t.pc.Emitting? then s else
      s.(rows := s.rows + [LogRow(s.id, "stdout", t.pc.recordOffset, t.pc.chunk)], tail := t.(pc := t.pc.next))
    case TailCheckStatus(seen, readable) =>
      if t.pc != CheckingStatus then s
      else if s.status.Some? && Finds(s, seen) then
        s.(tail := t.(pc := Draining(if readable then Recorded(s.status.value) else Unreadable, t.offset)))
      else s.(tail := t.(pc := CheckingAlive))
    case TailCheckAlive(reportedAlive) =>
      if t.pc != CheckingAlive then s
      else s.(tail := t.(pc := if reportedAlive then AtHead else Draining(ReportedDead(s.launcher), t.offset)))
    case TailDrain(seen) =>
      if !t.pc.Draining? then s else
      var saw := ReadsLog(s, t.holdsLog, seen);
      var done := Resolved(t.pc.found, t.pc.from, saw);
      var chunk := if saw then NextChunk(s, t.offset) else "";
      if chunk == "" then s.(tail := t.(pc := done))
      else s.(tail := Emit(t, chunk, if s.kind == Local then t.pc else done))
    case TailStops =>
      // `close` cancels the tailer, or a read raises and ends it
      if t.pc.Resolved? then s else s.(tail := t.(pc := Stopped))
  }

  // ---- Watcher, cancel, crash and startup recovery (services/task.py, services/recovery.py)

  /** The decision of `_watch_detached`; `_watch_reconnected` has no CANCELLING branch. */
  function WatcherVerdict(reconnected: bool, seen: TaskState, code: Option<int>): TaskState {
    if !reconnected && seen == CANCELLING then CANCELLED
    else if code == None then LOST
    else if code == Some(0) then SUCCEEDED
    else FAILED
  }

  function RuntimeStep(s: State, a: Action): State
    requires a.OtherTaskCommits? || a.StoreRunning? || a.WatcherWakes? || a.WatcherStores? || a.CancelStores? ||
             a.CancelTimesOut? || a.Crash? || a.Restart? || a.ReconnectRaises?
  {
    match a
    case OtherTaskCommits(row) =>
      if row.taskId == s.id then s else s.(rows := s.rows + [row])
    case StoreRunning =>
      if !s.watcher.Registering? then s else
      s.(task := Stored(RUNNING, s.task.exitCode, true, Unfinished), watcher := Waiting(s.watcher.reconnected))
    case WatcherWakes =>
      if s.watcher.Waiting? && s.tail.Tail? && s.tail.pc.Resolved?
      then s.(watcher := Deciding(s.watcher.reconnected, s.task.state, CodeOf(s.tail.pc.found))) else s
    case WatcherStores =>
      if !s.watcher.Deciding? || !s.tail.Tail? || !s.tail.pc.Resolved? then s else
      var w, pc := s.watcher, s.tail.pc;
      var verdict := WatcherVerdict(w.reconnected, w.seen, w.exitCode);
      s.(task := Stored(verdict, w.exitCode, s.task.hasBackendRef, LiveWatcher(pc.found, pc.from, pc.saw)),
         watcher := NoWatcher)
    case CancelStores(finished) =>
      // `cancel` stores CANCELLING and later CANCELLED, in any relation to the watcher
      if !s.up then s else
      s.(task := s.task.(state := if finished then CANCELLED else CANCELLING, writer := Unfinished))
    case CancelTimesOut =>
      // `cancel` waits in vain for the completion and withdraws it, which ends the watcher
      if s.watcher == Waiting(false) && s.tail.Tail? && !s.tail.pc.Resolved? then s.(watcher := NoWatcher) else s
    case Crash =>
      s.(up := false, tail := NoTail, watcher := NoWatcher)
    case Restart(probe) => if s.up then s else Restarted(s.(up := true), probe)
    case ReconnectRaises =>
      // publishing the reconnection raises: the tailer runs on, without a watcher
      if s.watcher == Registering(true) then GivenUp(s).(watcher := NoWatcher) else s
  }

  function GivenUp(s: State): State {
    s.(task := s.task.(state := LOST, writer := LostAtStartup(s.launcher)))
  }

  /** Startup recovery of this task: `_reconcile_tasks` with `reattach`. */
  function Restarted(s: State, probe: Probe): State {
    var resume := ResumeOffset(s.rows, s.id);
    if !RecoverableState(s.task.state) then s
    else if !s.task.hasBackendRef || probe.raises then GivenUp(s)
    else if s.status.Some? && Finds(s, probe.seen) then
      var code := if probe.readable then s.status else None;
      var outcome := Stored(if code == Some(0) then SUCCEEDED else FAILED, code, true, StartupRecovery(resume));
      // the exception of publishing is caught, and LOST stored over the outcome
      if probe.publishRaises then GivenUp(s.(task := outcome)) else s.(task := outcome)
    else if probe.reportedAlive then s.(tail := Tail(AtHead, resume, resume, false), watcher := Registering(true))
    else GivenUp(s)
  }

  function Step(s: State, a: Action): State {
    match a
    case OpenLog | LogGrows(_) | CommandExits(_) | StageStatus | RenameStatus | KillLauncher =>
      LauncherStep(s, a)
    case TailRead(_) | TailCommit | TailCheckStatus(_, _) | TailCheckAlive(_) | TailDrain(_) | TailStops =>
      TailStep(s, a)
    case _ => RuntimeStep(s, a)
  }

  function Run(s: State, actions: seq<Action>): State
    decreases |actions|
  {
    if actions == [] then s else Run(Step(s, actions[0]), actions[1..])
  }

  lemma {:induction false} RunConcat(s: State, first: seq<Action>, second: seq<Action>)
    ensures Run(s, first + second) == Run(Run(s, first), second)
    decreases |first|
  {
    if first == [] {
      assert first + second == second;
    } else {
      RunConcat(Step(s, first[0]), first[1..], second);
      assert (first + second)[1..] == first[1..] + second;
    }
  }

  lemma RunSnoc(s: State, trace: seq<Action>, a: Action)
    ensures Run(s, trace + [a]) == Step(Run(s, trace), a)
  {
    RunConcat(s, trace, [a]);
    assert [a][1..] == [];
  }
}
