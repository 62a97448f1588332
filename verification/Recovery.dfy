/** Startup reconciliation: `RecoveryService` with the `reattach_on_startup` of tasks and sessions.  What
    the providers answer, and where a call raises, is given by a probe for each record. */
module Recovery {
  import opened Model

  datatype TaskRow = TaskRow(id: string, state: TaskState, detached: bool, exitCode: Option<int>)

  /** What reattaching a detached task meets: `Broken` raises (or, for a missing endpoint, gives up) before
      anything is written; `emitRaises` says whether publishing the event after the write raises. */
  datatype TaskProbe =
    | Broken(raises: bool)
    | StatusFile(code: Option<int>, emitRaises: bool)
    | StillAlive(emitRaises: bool)
    | Gone

  datatype SessionState = CREATING | ACTIVE | DETACHED | DISCONNECTED | TERMINATED | LOST_SESSION

  datatype SessionRow = SessionRow(id: string, state: SessionState, exitCode: Option<int>)

  datatype SessionProbe =
    | NoProvider
    | ProbeRaises
    | Unchecked(emitRaises: bool)
    | NotAlive(finished: bool, code: Option<int>, emitRaises: bool)
    | AttachRaises
    | Attached(emitRaises: bool)

  predicate RecoverableSession(s: SessionState) {
    s == CREATING || s == ACTIVE || s == DETACHED
  }

  datatype Attempt = Returned(reclaimed: bool) | Raised

  // ---- What becomes of one record

  function TaskAfter(row: TaskRow, probe: TaskProbe): TaskRow {
    if !RecoverableState(row.state) then row
    else if !row.detached then row.(state := LOST)
    else match probe
      case StatusFile(code, emitRaises) =>
        if emitRaises then row.(state := LOST, exitCode := code)
        else row.(state := if code == Some(0) then SUCCEEDED else FAILED, exitCode := code)
      case StillAlive(emitRaises) => row.(state := if emitRaises then LOST else RUNNING)
      case _ => row.(state := LOST)
  }

  predicate WatchedAfter(row: TaskRow, probe: TaskProbe) {
    RecoverableState(row.state) && row.detached && probe == StillAlive(false)
  }

  /** Is a tailer left running? */
  predicate TailedAfter(row: TaskRow, probe: TaskProbe) {
    RecoverableState(row.state) && row.detached && probe.StillAlive?
  }

  /** What the watcher of a reconnected task stores when it ends with a code (`_watch_reconnected`). */
  function TaskEnded(row: TaskRow, code: Option<int>): TaskRow {
    row.(state := if code == None then LOST else if code == Some(0) then SUCCEEDED else FAILED, exitCode := code)
  }

  /** What the watcher of a session stores when its backend ends (`_watch_session`). */
  function SessionEnded(row: SessionRow, code: Option<int>): SessionRow {
    row.(state := TERMINATED, exitCode := code)
  }

  /** A row after recovery, and after its watcher if that has ended meanwhile. */
  function TaskFinally(row: TaskRow, probe: TaskProbe, ended: Option<Option<int>>): TaskRow {
    if ended.Some? then TaskEnded(TaskAfter(row, probe), ended.value) else TaskAfter(row, probe)
  }

  function SessionFinally(row: SessionRow, probe: SessionProbe, ended: Option<Option<int>>): SessionRow {
    if ended.Some? then SessionEnded(SessionAfter(row, probe), ended.value) else SessionAfter(row, probe)
  }

  /** A watcher of the row at a position ends with a code. */
  datatype Exit = Exit(row: nat, code: Option<int>)

  function Lookup(ended: map<nat, Option<int>>, i: nat): Option<Option<int>> {
    if i in ended then Some(ended[i]) else None
  }

  function SessionAfter(row: SessionRow, probe: SessionProbe): SessionRow {
    if !RecoverableSession(row.state) then row
    else match probe
      case Unchecked(emitRaises) => row.(state := if emitRaises then DISCONNECTED else DETACHED)
      case NotAlive(finished, code, emitRaises) =>
        if !finished && code == None then row.(state := DISCONNECTED)
        else row.(state := if emitRaises then DISCONNECTED else TERMINATED, exitCode := code)
      case Attached(emitRaises) => row.(state := if emitRaises then DISCONNECTED else ACTIVE)
      case _ => row.(state := DISCONNECTED)
  }

  /** Reattaching comes to the write of the session. */
  predicate Reaches(probe: SessionProbe) {
    probe.Unchecked? || probe.Attached? || (probe.NotAlive? && (probe.finished || probe.code.Some?))
  }

  predicate RegisteredAfter(row: SessionRow, probe: SessionProbe) {
    RecoverableSession(row.state) && probe.Attached?
  }

  function CountTasks(rows: seq<TaskRow>): nat {
    if rows == [] then 0
    else CountTasks(rows[..|rows| - 1]) + if RecoverableState(rows[|rows| - 1].state) then 1 else 0
  }

  function CountSessions(rows: seq<SessionRow>): nat {
    if rows == [] then 0
    else CountSessions(rows[..|rows| - 1]) + if RecoverableSession(rows[|rows| - 1].state) then 1 else 0
  }

  /** The tasks that claim to be live. */
  ghost function LiveTasks(rows: seq<TaskRow>): set<nat> {
    set i: nat | i < |rows| && rows[i].state in {PREPARING, RUNNING, CANCELLING}
  }

  ghost function LiveSessions(rows: seq<SessionRow>): set<nat> {
    set i: nat | i < |rows| && rows[i].state in {CREATING, ACTIVE, DETACHED}
  }

  lemma {:induction false} TasksCounted(rows: seq<TaskRow>)
    ensures CountTasks(rows) == |LiveTasks(rows)|
  {
    if rows != [] {
      var front, last := rows[..|rows| - 1], |rows| - 1;
      TasksCounted(front);
      assert LiveTasks(rows) == LiveTasks(front) + if RecoverableState(rows[last].state) then {last} else {};
    }
  }

  lemma {:induction false} SessionsCounted(rows: seq<SessionRow>)
    ensures CountSessions(rows) == |LiveSessions(rows)|
  {
    if rows != [] {
      var front, last := rows[..|rows| - 1], |rows| - 1;
      SessionsCounted(front);
      assert LiveSessions(rows) == LiveSessions(front) + if RecoverableSession(rows[last].state) then {last} else {};
    }
  }

  /** A runtime just built: the two tables, and the in-memory maps, which start out empty.  `watchers`,
      `tailers` and `handles` hold positions in the tables; `taskExits` and `sessionExits` are history: which
      watchers have ended, and how. */
  class Runtime {
    var tasks: seq<TaskRow>
    var watchers: set<nat>
    var tailers: set<nat>
    var sessions: seq<SessionRow>
    var handles: set<nat>
    var taskExits: map<nat, Option<int>>
    var sessionExits: map<nat, Option<int>>

    constructor (tasks: seq<TaskRow>, sessions: seq<SessionRow>)
      ensures this.tasks == tasks && this.sessions == sessions && Fresh()
    {
      this.tasks, this.sessions := tasks, sessions;
      watchers, tailers, handles, taskExits, sessionExits := {}, {}, {}, map[], map[];
    }

    predicate Fresh()
      reads this
    {
      watchers == {} && tailers == {} && handles == {} && taskExits == map[] && sessionExits == map[]
    }

    /** Watchers of tasks treated so far end, while recovery is suspended. */
    method TaskWatchersEnd(exits: seq<Exit>)
      requires forall i :: i in watchers ==> i < |tasks|
      modifies this`tasks, this`watchers, this`tailers, this`taskExits
      ensures |tasks| == |old(tasks)| && watchers <= old(watchers)
      ensures old(taskExits).Keys <= taskExits.Keys
      ensures forall i :: i in old(taskExits) && i !in old(watchers) ==> taskExits[i] == old(taskExits)[i]
      ensures forall i: nat | i < |tasks| ::
                if i in old(watchers) && i !in watchers then
                  i in taskExits && tasks[i] == TaskEnded(old(tasks)[i], taskExits[i]) && i !in tailers
                else
                  && tasks[i] == old(tasks)[i] && (i in taskExits <==> i in old(taskExits))
                  && (i in tailers <==> i in old(tailers)) && (i in taskExits ==> taskExits[i] == old(taskExits)[i])
    {
      for k := 0 to |exits|
        invariant |tasks| == |old(tasks)| && watchers <= old(watchers)
        invariant old(taskExits).Keys <= taskExits.Keys
        invariant forall i :: i in old(taskExits) && i !in old(watchers) ==> taskExits[i] == old(taskExits)[i]
        invariant forall i: nat | i < |tasks| ::
                    if i in old(watchers) && i !in watchers then
                      i in taskExits && tasks[i] == TaskEnded(old(tasks)[i], taskExits[i]) && i !in tailers
                    else
                      && tasks[i] == old(tasks)[i] && (i in taskExits <==> i in old(taskExits))
                      && (i in tailers <==> i in old(tailers)) && (i in taskExits ==> taskExits[i] == old(taskExits)[i])
      {
        var exit := exits[k];
        if exit.row in watchers {
          tasks := tasks[exit.row := TaskEnded(tasks[exit.row], exit.code)];
          watchers, tailers := watchers - {exit.row}, tailers - {exit.row};
          taskExits := taskExits[exit.row := exit.code];
        }
      }
    }

    /** The same for sessions: the watcher stores TERMINATED and removes the handle. */
    method SessionWatchersEnd(exits: seq<Exit>)
      requires forall i :: i in handles ==> i < |sessions|
      modifies this`sessions, this`handles, this`sessionExits
      ensures |sessions| == |old(sessions)| && handles <= old(handles)
      ensures forall i: nat | i < |sessions| ::
                if i in old(handles) && i !in handles then
                  i in sessionExits && sessions[i] == SessionEnded(old(sessions)[i], sessionExits[i])
                else
                  && sessions[i] == old(sessions)[i] && (i in sessionExits <==> i in old(sessionExits))
                  && (i in sessionExits ==> sessionExits[i] == old(sessionExits)[i])
    {
      for k := 0 to |exits|
        invariant |sessions| == |old(sessions)| && handles <= old(handles)
        invariant forall i: nat | i < |sessions| ::
                    if i in old(handles) && i !in handles then
                      i in sessionExits && sessions[i] == SessionEnded(old(sessions)[i], sessionExits[i])
                    else
                      && sessions[i] == old(sessions)[i] && (i in sessionExits <==> i in old(sessionExits))
                      && (i in sessionExits ==> sessionExits[i] == old(sessionExits)[i])
      {
        var exit := exits[k];
        if exit.row in handles {
          sessions := sessions[exit.row := SessionEnded(sessions[exit.row], exit.code)];
          handles := handles - {exit.row};
          sessionExits := sessionExits[exit.row := exit.code];
        }
      }
    }

    /** `TaskService.reattach_on_startup`; `task` is the in-memory record, changed even when the call
        raises later. */
    method ReattachTask(i: nat, probe: TaskProbe) returns (attempt: Attempt, task: TaskRow)
      requires i < |tasks|
      modifies this`tasks, this`watchers, this`tailers
      ensures tasks == if probe.StatusFile? || probe.StillAlive? then old(tasks)[i := task] else old(tasks)
      ensures attempt == Raised <==>
                probe == Broken(true) || (probe.StatusFile? && probe.emitRaises) || probe == StillAlive(true)
      ensures attempt == Returned(true) <==> probe == StillAlive(false) || (probe.StatusFile? && !probe.emitRaises)
      ensures task == old(tasks)[i].(state := task.state, exitCode := task.exitCode)
      ensures task.state == if probe.StillAlive? then RUNNING
                            else if !probe.StatusFile? then old(tasks)[i].state
                            else if probe.code == Some(0) then SUCCEEDED else FAILED
      ensures task.exitCode == if probe.StatusFile? then probe.code else old(tasks)[i].exitCode
      ensures watchers == if probe == StillAlive(false) then old(watchers) + {i} else old(watchers)
      ensures tailers == if probe.StillAlive? then old(tailers) + {i} else old(tailers)
    {
      task := tasks[i];
      match probe
      case Broken(raises) =>
        attempt := if raises then Raised else Returned(false);
      case StatusFile(code, emitRaises) =>
        task := task.(exitCode := code);
        task := task.(state := if code == Some(0) then SUCCEEDED else FAILED);
        tasks := tasks[i := task];
        attempt := if emitRaises then Raised else Returned(true);
      case StillAlive(emitRaises) =>
        tailers := tailers + {i};
        task := task.(state := RUNNING);
        tasks := tasks[i := task];
        if emitRaises { return Raised, task; }
        watchers := watchers + {i};
        attempt := Returned(true);
      case Gone =>
        attempt := Returned(false);
    }

    /** The body of the loop of `_reconcile_tasks` for a recoverable task. */
    method RecoverTask(i: nat, probe: TaskProbe)
      requires i < |tasks| && RecoverableState(tasks[i].state)
      modifies this`tasks, this`watchers, this`tailers
      ensures tasks == old(tasks)[i := TaskAfter(old(tasks)[i], probe)]
      ensures watchers == if WatchedAfter(old(tasks)[i], probe) then old(watchers) + {i} else old(watchers)
      ensures tailers == if TailedAfter(old(tasks)[i], probe) then old(tailers) + {i} else old(tailers)
    {
      var task := tasks[i];
      var reclaimed := false;
      if task.detached {
        var attempt;
        attempt, task := ReattachTask(i, probe);
        reclaimed := attempt == Returned(true);
      }
      if !reclaimed {
        task := task.(state := LOST);
        tasks := tasks[i := task];
      }
    }

    /** Row `i` is as recovery and, if that has ended, its watcher left it. */
    ghost predicate TaskTreated(i: nat, row: TaskRow, probe: TaskProbe)
      reads this
    {
      && i < |tasks| && tasks[i] == TaskFinally(row, probe, Lookup(taskExits, i))
      && (i in taskExits ==> WatchedAfter(row, probe))
      && (i in watchers <==> WatchedAfter(row, probe) && i !in taskExits)
      && (i in tailers <==> TailedAfter(row, probe) && i !in taskExits)
    }

    ghost predicate TaskUntreated(i: nat, row: TaskRow)
      reads this
    {
      i < |tasks| && tasks[i] == row && i !in watchers && i !in tailers && i !in taskExits
    }

    /** `_reconcile_tasks`; at its k-th turn the watchers in `exits(k)` end. */
    method ReconcileTasks(probes: nat -> TaskProbe, exits: nat -> seq<Exit>) returns (count: nat)
      requires Fresh()
      modifies this`tasks, this`watchers, this`tailers, this`taskExits
      ensures count == CountTasks(old(tasks))
      ensures |tasks| == |old(tasks)| && (forall i :: i in watchers ==> i < |tasks|)
      ensures forall i: nat | i < |tasks| :: TaskTreated(i, old(tasks)[i], probes(i))
    {
      var list := tasks;
      count := 0;
      assert list[..0] == [];
      for k := 0 to |list|
        invariant |list| == |tasks| && (forall i :: i in watchers ==> i < |tasks|)
        invariant forall i: nat | i < k :: TaskTreated(i, list[i], probes(i))
        invariant forall i: nat | k <= i < |list| :: TaskUntreated(i, list[i])
        invariant count == CountTasks(list[..k])
      {
        assert list[..k + 1][..k] == list[..k];
        TaskTurn(list, k, probes, exits(k));
        if RecoverableState(list[k].state) { count := count + 1; }
      }
      assert list[..|list|] == list;
    }

    /** One turn of that loop: watchers move, and the record is treated. */
    method TaskTurn(list: seq<TaskRow>, k: nat, probes: nat -> TaskProbe, exits: seq<Exit>)
      requires k < |list| == |tasks| && (forall i :: i in watchers ==> i < |tasks|)
      requires forall i: nat | i < k :: TaskTreated(i, list[i], probes(i))
      requires forall i: nat | k <= i < |list| :: TaskUntreated(i, list[i])
      modifies this`tasks, this`watchers, this`tailers, this`taskExits
      ensures |list| == |tasks| && (forall i :: i in watchers ==> i < |tasks|)
      ensures forall i: nat | i <= k :: TaskTreated(i, list[i], probes(i))
      ensures forall i: nat | k < i < |list| :: TaskUntreated(i, list[i])
    {
      TaskWatchersEnd(exits);
      assert forall i: nat | i < k :: TaskTreated(i, list[i], probes(i));
      assert forall i: nat | k <= i < |list| :: TaskUntreated(i, list[i]);
      if RecoverableState(list[k].state) {
        RecoverTask(k, probes(k));
      }
    }

    /** `SessionService.reattach_on_startup`. */
    method ReattachSession(i: nat, probe: SessionProbe) returns (attempt: Attempt, session: SessionRow)
      requires i < |sessions|
      modifies this`sessions, this`handles
      ensures sessions == if Reaches(probe) then old(sessions)[i := session] else old(sessions)
      ensures !Reaches(probe) ==> session == old(sessions)[i]
      ensures session == old(sessions)[i].(state := session.state, exitCode := session.exitCode)
      ensures attempt == Returned(true) <==>
                match probe
                case Unchecked(emitRaises) => !emitRaises
                case NotAlive(finished, code, emitRaises) => (finished || code.Some?) && !emitRaises
                case Attached(emitRaises) => !emitRaises
                case _ => false
      ensures attempt == Raised <==> probe.ProbeRaises? || probe.AttachRaises? || (Reaches(probe) && probe.emitRaises)
      ensures Reaches(probe) ==>
                session.state == if probe.Unchecked? then DETACHED else if probe.NotAlive? then TERMINATED else ACTIVE
      ensures session.exitCode ==
                if probe.NotAlive? && (probe.finished || probe.code.Some?) then probe.code
                    else old(sessions)[i].exitCode
      ensures handles == if probe.Attached? then old(handles) + {i} else old(handles)
    {
      session := sessions[i];
      match probe
      case NoProvider =>
        attempt := Returned(false);
      case ProbeRaises =>
        attempt := Raised;
      case Unchecked(emitRaises) =>
        session := session.(state := DETACHED);
        sessions := sessions[i := session];
        attempt := if emitRaises then Raised else Returned(true);
      case NotAlive(finished, code, emitRaises) =>
        if !finished && code == None { return Returned(false), session; }
        session := session.(exitCode := code);
        session := session.(state := TERMINATED);
        sessions := sessions[i := session];
        attempt := if emitRaises then Raised else Returned(true);
      case AttachRaises =>
        attempt := Raised;
      case Attached(emitRaises) =>
        session := session.(state := ACTIVE);
        sessions := sessions[i := session];
        handles := handles + {i};
        attempt := if emitRaises then Raised else Returned(true);
    }

    /** The body of the loop of `_reconcile_sessions` for a recoverable session. */
    method RecoverSession(i: nat, probe: SessionProbe)
      requires i < |sessions| && RecoverableSession(sessions[i].state)
      modifies this`sessions, this`handles
      ensures sessions == old(sessions)[i := SessionAfter(old(sessions)[i], probe)]
      ensures handles == if RegisteredAfter(old(sessions)[i], probe) then old(handles) + {i} else old(handles)
    {
      var attempt, session := ReattachSession(i, probe);
      if attempt != Returned(true) {
        session := session.(state := DISCONNECTED);
        sessions := sessions[i := session];
      }
    }

    ghost predicate SessionTreated(i: nat, row: SessionRow, probe: SessionProbe)
      reads this
    {
      && i < |sessions| && sessions[i] == SessionFinally(row, probe, Lookup(sessionExits, i))
      && (i in sessionExits ==> RegisteredAfter(row, probe))
      && (i in handles <==> RegisteredAfter(row, probe) && i !in sessionExits)
    }

    ghost predicate SessionUntreated(i: nat, row: SessionRow)
      reads this
    {
      i < |sessions| && sessions[i] == row && i !in handles && i !in sessionExits
    }

    /** `_reconcile_sessions`; at its k-th turn the watchers in `exits(k)` end. */
    method ReconcileSessions(probes: nat -> SessionProbe, exits: nat -> seq<Exit>) returns (count: nat)
      requires handles == {} && sessionExits == map[]
      modifies this`sessions, this`handles, this`sessionExits
      ensures count == CountSessions(old(sessions))
      ensures |sessions| == |old(sessions)| && (forall i :: i in handles ==> i < |sessions|)
      ensures forall i: nat | i < |sessions| :: SessionTreated(i, old(sessions)[i], probes(i))
    {
      var list := sessions;
      count := 0;
      assert list[..0] == [];
      for k := 0 to |list|
        invariant |list| == |sessions| && (forall i :: i in handles ==> i < |sessions|)
        invariant forall i: nat | i < k :: SessionTreated(i, list[i], probes(i))
        invariant forall i: nat | k <= i < |list| :: SessionUntreated(i, list[i])
        invariant count == CountSessions(list[..k])
      {
        assert list[..k + 1][..k] == list[..k];
        SessionTurn(list, k, probes, exits(k));
        if RecoverableSession(list[k].state) { count := count + 1; }
      }
      assert list[..|list|] == list;
    }

    method SessionTurn(list: seq<SessionRow>, k: nat, probes: nat -> SessionProbe, exits: seq<Exit>)
      requires k < |list| == |sessions| && (forall i :: i in handles ==> i < |sessions|)
      requires forall i: nat | i < k :: SessionTreated(i, list[i], probes(i))
      requires forall i: nat | k <= i < |list| :: SessionUntreated(i, list[i])
      modifies this`sessions, this`handles, this`sessionExits
      ensures |list| == |sessions| && (forall i :: i in handles ==> i < |sessions|)
      ensures forall i: nat | i <= k :: SessionTreated(i, list[i], probes(i))
      ensures forall i: nat | k < i < |list| :: SessionUntreated(i, list[i])
    {
      SessionWatchersEnd(exits);
      assert forall i: nat | i < k :: SessionTreated(i, list[i], probes(i));
      assert forall i: nat | k <= i < |list| :: SessionUntreated(i, list[i]);
      if RecoverableSession(list[k].state) {
        RecoverSession(k, probes(k));
      }
    }

    /** `reconcile_on_startup`, while watchers of records already treated end: `taskExits` and `sessionExits`
        during the two loops, `later` during the second one. */
    method Reconcile(taskProbes: nat -> TaskProbe, sessionProbes: nat -> SessionProbe,
                     taskExitsAt: nat -> seq<Exit>, sessionExitsAt: nat -> seq<Exit>, later: seq<Exit>)
      returns (taskCount: nat, sessionCount: nat)
      requires Fresh()
      modifies this
      ensures taskCount == |LiveTasks(old(tasks))| && sessionCount == |LiveSessions(old(sessions))|
      ensures |tasks| == |old(tasks)| && |sessions| == |old(sessions)|
      ensures forall i: nat | i < |tasks| ::
                HonestTask(old(tasks)[i], tasks[i], taskProbes(i), i in watchers, Lookup(taskExits, i))
      ensures forall i: nat | i < |tasks| ::
                tasks[i].state == LOST && i in tailers <==>
                  old(tasks)[i].state in {PREPARING, RUNNING, CANCELLING} && old(tasks)[i].detached &&
                  taskProbes(i) == StillAlive(true)
      ensures forall i: nat | i < |sessions| ::
                HonestSession(old(sessions)[i], sessions[i], sessionProbes(i), i in handles, Lookup(sessionExits, i))
    {
      taskCount, sessionCount := ReconcileBoth(taskProbes, sessionProbes, taskExitsAt, sessionExitsAt, later);
      TasksCounted(old(tasks));
      SessionsCounted(old(sessions));
      forall i: nat | i < |tasks|
        ensures HonestTask(old(tasks)[i], tasks[i], taskProbes(i), i in watchers, Lookup(taskExits, i))
      {
        assert TaskTreated(i, old(tasks)[i], taskProbes(i));
        TaskIsHonest(old(tasks)[i], taskProbes(i), Lookup(taskExits, i));
      }
      forall i: nat | i < |sessions|
        ensures HonestSession(old(sessions)[i], sessions[i], sessionProbes(i), i in handles, Lookup(sessionExits, i))
      {
        assert SessionTreated(i, old(sessions)[i], sessionProbes(i));
        SessionIsHonest(old(sessions)[i], sessionProbes(i), Lookup(sessionExits, i));
      }
    }

    method ReconcileBoth(taskProbes: nat -> TaskProbe, sessionProbes: nat -> SessionProbe,
                         taskExitsAt: nat -> seq<Exit>, sessionExitsAt: nat -> seq<Exit>, later: seq<Exit>)
      returns (taskCount: nat, sessionCount: nat)
      requires Fresh()
      modifies this
      ensures taskCount == CountTasks(old(tasks)) && sessionCount == CountSessions(old(sessions))
      ensures |tasks| == |old(tasks)| && |sessions| == |old(sessions)|
      ensures forall i: nat | i < |tasks| :: TaskTreated(i, old(tasks)[i], taskProbes(i))
      ensures forall i: nat | i < |sessions| :: SessionTreated(i, old(sessions)[i], sessionProbes(i))
    {
      taskCount := ReconcileTasks(taskProbes, taskExitsAt);
      sessionCount := ReconcileSessions(sessionProbes, sessionExitsAt);
      TaskWatchersEnd(later);
    }
  }

  // ---- Totality and honesty

  /** A task that was not live is untouched.  A task that claimed to be live ends
      - SUCCEEDED or FAILED exactly when the status file gave that outcome and publishing it did not raise, or
        its watcher ended with it;
      - LOST exactly when it was not detached, could not be reattached, publishing raised, or its watcher ended
        without a code;
      - RUNNING exactly with a watcher attached, one that still runs;
      and the exit code is the one found, if one was looked for. */
  ghost predicate HonestTask(before: TaskRow, after: TaskRow, probe: TaskProbe, watched: bool,
                             ended: Option<Option<int>>) {
    if before.state !in {PREPARING, RUNNING, CANCELLING} then after == before && !watched && ended == None
    else
      && after.id == before.id && after.detached == before.detached
      && (after.state == SUCCEEDED <==>
            ended == Some(Some(0)) || (before.detached && probe == StatusFile(Some(0), false)))
      && (after.state == FAILED <==>
            || (ended.Some? && ended.value.Some? && ended.value.value != 0)
            || (before.detached && probe.StatusFile? && probe.code != Some(0) && !probe.emitRaises))
      && (after.state == LOST <==>
            || ended == Some(None) || !before.detached || probe.Broken? || probe.Gone?
            || probe == StillAlive(true) || (probe.StatusFile? && probe.emitRaises))
      && (after.state == RUNNING <==> watched)
      && (watched <==> before.detached && probe == StillAlive(false) && ended == None)
      && (ended.Some? ==> before.detached && probe == StillAlive(false))
      && after.exitCode == (if ended.Some? then ended.value
                            else if before.detached && probe.StatusFile? then probe.code else before.exitCode)
  }

  /** A session that was not live is untouched.  Another ends
      - TERMINATED exactly when the provider found it finished, or with a code, and publishing that did not
        raise, or its watcher ended;
      - DETACHED exactly when its provider could not check it, ACTIVE exactly when it was attached and its
        watcher has not ended, and publishing did not raise;
      - DISCONNECTED exactly when it could not be reattached or publishing raised;
      and the handle is registered exactly while the attachment lasts. */
  ghost predicate HonestSession(before: SessionRow, after: SessionRow, probe: SessionProbe, registered: bool,
                                ended: Option<Option<int>>) {
    if before.state !in {CREATING, ACTIVE, DETACHED} then after == before && !registered && ended == None
    else
      var over := probe.NotAlive? && (probe.finished || probe.code.Some?);
      && after.id == before.id
      && (after.state == TERMINATED <==> ended.Some? || (over && !probe.emitRaises))
      && (after.state == DETACHED <==> probe == Unchecked(false))
      && (after.state == ACTIVE <==> probe == Attached(false) && ended == None)
      && (after.state == DISCONNECTED <==>
            ended == None &&
                (probe.NoProvider? || probe.ProbeRaises? || probe.AttachRaises? || probe == Unchecked(true) ||
                    probe == Attached(true) || (probe.NotAlive? && (!over || probe.emitRaises))))
      && (registered <==> probe.Attached? && ended == None)
      && (ended.Some? ==> probe.Attached?)
      && after.exitCode == (if ended.Some? then ended.value else if over then probe.code else before.exitCode)
  }

  lemma TaskIsHonest(row: TaskRow, probe: TaskProbe, ended: Option<Option<int>>)
    requires ended.Some? ==> WatchedAfter(row, probe)
    ensures HonestTask(row, TaskFinally(row, probe, ended), probe, WatchedAfter(row, probe) && ended == None, ended)
  {
  }

  lemma SessionIsHonest(row: SessionRow, probe: SessionProbe, ended: Option<Option<int>>)
    requires ended.Some? ==> RegisteredAfter(row, probe)
    ensures HonestSession(row, SessionFinally(row, probe, ended), probe,
                          RegisteredAfter(row, probe) && ended == None, ended)
  {
  }

  /** DISCONNECTED with a handle still registered happens exactly when publishing the reconnection raises. */
  lemma DisconnectedWithHandle(row: SessionRow, probe: SessionProbe)
    requires RecoverableSession(row.state)
    ensures SessionAfter(row, probe).state == DISCONNECTED && RegisteredAfter(row, probe) <==>
              probe == Attached(true)
  {
  }

  /** Reconciling again on the next start, before anything else happened, changes no finished task. */
  lemma ReconcileIsStable(row: TaskRow, probe: TaskProbe, later: TaskProbe)
    ensures TerminalState(TaskAfter(row, probe).state) ==>
              TaskAfter(TaskAfter(row, probe), later) == TaskAfter(row, probe)
    ensures !TerminalState(TaskAfter(row, probe).state) ==>
              TaskAfter(row, probe).state == RUNNING || TaskAfter(row, probe) == row
  {
  }
}
