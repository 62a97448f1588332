/** The loop of `LocalDetachedHandle._run`, run against surroundings that may move at each of its await
    points, is a run of the transition system of a detached task; so what holds of every reachable state
    holds whenever the loop is suspended and when it resolves. */
module LocalTailer {
  import opened Model
  import opened LogStore
  import opened DetachedTask
  import opened DetachedTaskSafety

  /** What everything outside the tailer does at one await point, and what the probes answer there. */
  datatype Move = Move(actions: seq<Action>, answer: Answer)

  /** What the probes answer: a stat over SFTP of the log and of the status file, when the file is there; the
      content of the status file; the process. */
  datatype Answer = Answer(logSeen: bool, statusSeen: bool, readable: bool, reportedAlive: bool)

  predicate Environmental(a: Action) {
    !OfTail(a) && !a.Crash? && !a.Restart?
  }

  ghost predicate Fair(moves: seq<Move>) {
    forall m, a :: m in moves && a in m.actions ==> Environmental(a)
  }

  lemma {:induction false} EnvironmentKeepsTail(s: State, actions: seq<Action>)
    requires forall a :: a in actions ==> Environmental(a)
    ensures Run(s, actions).tail == s.tail && Run(s, actions).kind == s.kind
    decreases |actions|
  {
    if actions != [] {
      assert actions[0] in actions;
      EnvironmentKeepsTail(Step(s, actions[0]), actions[1..]);
    }
  }

  class LocalDetachedHandle {
    const initialOffset: nat
    var offset: nat
    var holdsLog: bool
    /** `offset_counter["stdout"]` of the `on_output` closure */
    var counter: nat
    var pendingExitCode: Option<int>
    /** History: what the pending code comes from, and where the final drain began. */
    var found: Finding
    var from: nat
    /** The completion future: unset, or set to an optional exit code. */
    var completion: Option<Option<int>>
    /** Everything outside the handle: the files, the launcher, the tables, the watcher. */
    var world: State

    constructor (world: State, initialOffset: nat)
      ensures View(AtHead) == world.(tail := Tail(AtHead, initialOffset, initialOffset, false))
      ensures completion == None && this.world == world
    {
      this.initialOffset := initialOffset;
      offset, counter, holdsLog := initialOffset, initialOffset, false;
      pendingExitCode, completion, found, from := None, None, Unreadable, 0;
      this.world := world;
    }

    function View(pc: Pc): State
      reads this
    {
      world.(tail := Tail(pc, offset, counter, holdsLog))
    }

    /** One await point: the surroundings take the steps of the next move, if there is one. */
    method Elapse(pc: Pc, moves: seq<Move>, k: nat, ghost start: State, ghost trace: seq<Action>)
      returns (k': nat, ghost trace': seq<Action>)
      requires Fair(moves) && k <= |moves| && View(pc) == Run(start, trace)
      modifies this`world
      ensures View(pc) == Run(start, trace')
      ensures k' == if k < |moves| then k + 1 else k
      ensures k == |moves| ==> world == old(world)
      ensures world.kind == old(world.kind)
    {
      k', trace' := k, trace;
      if k < |moves| {
        assert moves[k] in moves;
        EnvironmentKeepsTail(View(pc), moves[k].actions);
        RunConcat(start, trace, moves[k].actions);
        world := Run(View(pc), moves[k].actions);
        k', trace' := k + 1, trace + moves[k].actions;
      }
    }

    /** `on_output` of the task service: take the record offset, advance the counter, commit the record. */
    method OnOutput(chunk: string, next: Pc, moves: seq<Move>, k: nat, ghost start: State, ghost trace: seq<Action>)
      returns (k': nat, ghost trace': seq<Action>)
      requires Fair(moves) && k <= |moves|
      requires world.(tail := Tail(Emitting(chunk, counter, next), offset, counter + |chunk|, holdsLog))
               == Run(start, trace)
      modifies this`world, this`counter
      ensures View(next) == Run(start, trace')
      ensures k <= k' <= |moves| && (k' == k ==> world.log == old(world.log))
      ensures world.kind == old(world.kind)
    {
      var recordOffset := counter;
      counter := counter + |chunk|;
      k', trace' := Elapse(Emitting(chunk, recordOffset, next), moves, k, start, trace);
      RunSnoc(start, trace', TailCommit);
      world := world.(rows := world.rows + [LogRow(world.id, "stdout", recordOffset, chunk)]);
      trace' := trace' + [TailCommit];
    }

    /** `_check_completion`: the status file is looked at before the process. */
    method CheckCompletion(readable: bool, reportedAlive: bool, ghost start: State, ghost trace: seq<Action>)
      returns (finished: bool, ghost trace': seq<Action>)
      requires world.kind == Local && View(CheckingStatus) == Run(start, trace)
      modifies this`pendingExitCode, this`found, this`from
      ensures View(if finished then Draining(found, from) else AtHead) == Run(start, trace')
      ensures finished <==> world.status.Some? || !reportedAlive
      ensures finished ==> pendingExitCode == CodeOf(found)
    {
      RunSnoc(start, trace, TailCheckStatus(true, readable));
      trace' := trace + [TailCheckStatus(true, readable)];
      from := offset;
      if world.status.Some? {
        pendingExitCode := if readable then world.status else None;
        found := if readable then Recorded(world.status.value) else Unreadable;
        return true, trace';
      }
      RunSnoc(start, trace', TailCheckAlive(reportedAlive));
      trace' := trace' + [TailCheckAlive(reportedAlive)];
      if !reportedAlive {
        pendingExitCode, found := None, ReportedDead(world.launcher);
        return true, trace';
      }
      return false, trace';
    }

    /** `handle.seek(offset); handle.read(4096)`: nothing without an open file. */
    function Read(): string
      reads this
    {
      if holdsLog then NextChunk(world, offset) else ""
    }

    /** The head of the loop: open the log if it can be opened, read on from `offset`. */
    method ReadAtHead(ghost start: State, ghost trace: seq<Action>) returns (chunk: string, ghost trace': seq<Action>)
      requires world.kind == Local && View(AtHead) == Run(start, trace)
      modifies this`holdsLog, this`offset
      ensures offset == old(offset) + |chunk|
      ensures chunk != "" ==> offset <= |LogText(world)|
      ensures chunk == "" ==> View(CheckingStatus) == Run(start, trace') && |LogText(world)| <= offset
      ensures chunk != "" ==>
                world.(tail := Tail(Emitting(chunk, counter, AtHead), offset, counter + |chunk|, holdsLog))
                == Run(start, trace')
    {
      RunSnoc(start, trace, TailRead(true));
      trace' := trace + [TailRead(true)];
      if !holdsLog { holdsLog := world.log.Some?; }
      chunk := Read();
      offset := offset + |chunk|;
    }

    /** The final drain, then `_resolve`. */
    method DrainAndResolve(moves: seq<Move>, k: nat, ghost start: State, ghost trace: seq<Action>)
      returns (k': nat, ghost trace': seq<Action>)
      requires Fair(moves) && k <= |moves| && world.kind == Local && completion == None
      requires View(Draining(found, from)) == Run(start, trace) && pendingExitCode == CodeOf(found)
      modifies this`world, this`counter, this`offset, this`completion
      ensures completion == Some(CodeOf(found))
      ensures k <= k' <= |moves|
      ensures View(Resolved(found, from, holdsLog)) == Run(start, trace')
    {
      k', trace' := k, trace;
      var tail := Read();
      while tail != ""
        invariant k <= k' <= |moves| && world.kind == Local && completion == None
        invariant View(Draining(found, from)) == Run(start, trace')
        invariant tail == Read()
        decreases |moves| - k', |LogText(world)| - offset
      {
        k', trace' := DrainChunk(tail, moves, k', start, trace');
        tail := Read();
      }
      RunSnoc(start, trace', TailDrain(true));
      trace' := trace' + [TailDrain(true)];
      if completion == None { completion := Some(pendingExitCode); }
    }

    /** One turn of the final drain. */
    method DrainChunk(tail: string, moves: seq<Move>, k: nat, ghost start: State, ghost trace: seq<Action>)
      returns (k': nat, ghost trace': seq<Action>)
      requires Fair(moves) && k <= |moves| && world.kind == Local && tail == Read() != ""
      requires View(Draining(found, from)) == Run(start, trace)
      modifies this`world, this`counter, this`offset
      ensures View(Draining(found, from)) == Run(start, trace') && world.kind == Local
      ensures k < k' <= |moves| || (k' == k && world.log == old(world.log) && old(offset) < offset <= |LogText(world)|)
    {
      RunSnoc(start, trace, TailDrain(true));
      offset := offset + |tail|;
      k', trace' := OnOutput(tail, Draining(found, from), moves, k, start, trace + [TailDrain(true)]);
    }

    /** `_run`.  It is left suspended in its sleep when the moves are used up: then it has read to the end
        of the log, found no status file and been told that the process is alive. */
    method RunLoop(moves: seq<Move>) returns (used: nat, ghost trace: seq<Action>)
      requires Fair(moves) && world.kind == Local && completion == None
      modifies this
      ensures used <= |moves|
      ensures completion == None ==> View(AtHead) == Run(old(View(AtHead)), trace)
      ensures completion == None ==> used == |moves| && |LogText(world)| <= offset && world.status == None
      ensures completion.Some? ==>
                View(Resolved(found, from, holdsLog)) == Run(old(View(AtHead)), trace) &&
                    completion.value == CodeOf(found)
    {
      ghost var start := View(AtHead);
      used, trace := 0, [];
      while true
        invariant used <= |moves| && world.kind == Local && completion == None
        invariant View(AtHead) == Run(start, trace)
        decreases |moves| - used, |LogText(world)| - offset
      {
        var chunk;
        chunk, trace := ReadAtHead(start, trace);
        if chunk != "" {
          used, trace := OnOutput(chunk, AtHead, moves, used, start, trace);
          continue;
        }
        var finished;
        finished, trace := CheckCompletion(used == |moves| || moves[used].answer.readable,
                                           used == |moves| || moves[used].answer.reportedAlive, start, trace);
        if finished {
          used, trace := DrainAndResolve(moves, used, start, trace);
          return;
        }
        if used == |moves| { return; }
        used, trace := Elapse(AtHead, moves, used, start, trace);
      }
    }
  }

  /** What the refinement buys: from any reachable state the records of the task tile a prefix of its log
      whenever the loop is suspended, and once it resolves with an exit code the launcher recorded that
      code and, if the log file was ever open, all output from before the exit is persisted. */
  method TailFromReachable(handle: LocalDetachedHandle, moves: seq<Move>)
    requires Fair(moves) && handle.world.kind == Local && handle.completion == None
    requires Reachable(handle.View(AtHead))
    modifies handle
    ensures handle.completion == None ==>
              Reachable(handle.View(AtHead)) && Persisted(handle.world) == LogText(handle.world)
    ensures handle.completion.Some? ==> Reachable(handle.View(Resolved(handle.found, handle.from, handle.holdsLog)))
    ensures handle.completion.Some? && handle.completion.value.Some? ==>
              handle.completion.value == handle.world.status
    ensures handle.completion.Some? && handle.completion.value.Some? && handle.holdsLog ==>
              handle.world.exitLength <= |Persisted(handle.world)|
  {
    ghost var start := handle.View(AtHead);
    var _, trace := handle.RunLoop(moves);
    ghost var end := handle.View(if handle.completion == None then AtHead
                                 else Resolved(handle.found, handle.from, handle.holdsLog));
    ReachableRun(start, trace);
    ResolvedFacts(end);
    ReachableInv(end);
    PersistedIsMine(end);
    assert Persisted(end) <= LogText(end);
  }

  /** A resolved tailer carries the recorded exit code; it has drained the log if its last read saw it, and
      otherwise added nothing since the final drain began. */
  lemma ResolvedFacts(s: State)
    requires Reachable(s)
    ensures s.tail.Tail? && s.tail.pc.Resolved? && s.tail.pc.found.Recorded? ==>
              && s.status == Some(s.tail.pc.found.code)
              && (if s.tail.pc.saw then s.exitLength <= |Persisted(s)| else |Persisted(s)| == s.tail.pc.from)
  {
    ReachableInv(s);
    PersistedIsMine(s);
  }
}
