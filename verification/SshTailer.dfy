/** The loop of `SSHDetachedHandle._run`, run against surroundings that may move at each of its await points,
    is a run of the transition system of a detached task. */
module SshTailer {
  import opened Model
  import opened LogStore
  import opened DetachedTask
  import opened DetachedTaskSafety
  import opened LocalTailer

  /** What a read over SFTP finds beyond the offset. */
  function Unread(world: State, offset: nat, seen: bool): string {
    if seen && |LogText(world)| > offset then LogText(world)[offset..] else ""
  }

  function HandingOn(world: State, offset: nat, counter: nat, sawLog: bool, chunk: string, next: Pc): State {
    world.(tail := if chunk == "" then Tail(next, offset, counter, sawLog)
                   else Tail(Emitting(chunk, counter, next), offset + |chunk|, counter + |chunk|, sawLog))
  }

  lemma ReadStepIs(world: State, offset: nat, counter: nat, sawLog: bool, seen: bool)
    requires world.kind == Ssh
    ensures Step(world.(tail := Tail(AtHead, offset, counter, sawLog)), TailRead(seen)) ==
            HandingOn(world, offset, counter, sawLog || world.log.Some?, Unread(world, offset, seen), CheckingStatus)
  {
  }

  lemma DrainStepIs(world: State, offset: nat, counter: nat, sawLog: bool, seen: bool, found: Finding, from: nat)
    requires world.kind == Ssh
    ensures Step(world.(tail := Tail(Draining(found, from), offset, counter, sawLog)), TailDrain(seen)) ==
            HandingOn(world, offset, counter, sawLog, Unread(world, offset, seen),
                Resolved(found, from, seen && world.log.Some?))
  {
  }

  class SSHDetachedHandle {
    const initialOffset: nat
    /** `offset_counter["stdout"]` of the `on_output` closure */
    var counter: nat
    var pendingExitCode: Option<int>
    var completion: Option<Option<int>>
    /** Everything outside the handle. */
    var world: State
    /** History: the log file was there at some read; what the pending code comes from, where the final drain
        began, and whether it saw the log. */
    var sawLog: bool
    var found: Finding
    var from: nat
    var drained: bool

    constructor (world: State, initialOffset: nat)
      ensures View(AtHead, initialOffset) == world.(tail := Tail(AtHead, initialOffset, initialOffset, false))
      ensures completion == None && this.world == world
    {
      this.initialOffset, counter, sawLog := initialOffset, initialOffset, false;
      pendingExitCode, completion, found, from, drained := None, None, Unreadable, 0, false;
      this.world := world;
    }

    /** `offset` is a local variable of the loop. */
    function View(pc: Pc, offset: nat): State
      reads this
    {
      world.(tail := Tail(pc, offset, counter, sawLog))
    }

    /** One await point. */
    method Elapse(pc: Pc, offset: nat, moves: seq<Move>, k: nat, ghost start: State, ghost trace: seq<Action>)
      returns (k': nat, ghost trace': seq<Action>)
      requires Fair(moves) && k <= |moves| && View(pc, offset) == Run(start, trace)
      modifies this`world
      ensures View(pc, offset) == Run(start, trace')
      ensures k' == if k < |moves| then k + 1 else k
      ensures world.kind == old(world.kind)
      ensures k == |moves| ==> world == old(world)
    {
      k', trace' := k, trace;
      if k < |moves| {
        assert moves[k] in moves;
        EnvironmentKeepsTail(View(pc, offset), moves[k].actions);
        RunConcat(start, trace, moves[k].actions);
        world := Run(View(pc, offset), moves[k].actions);
        k', trace' := k + 1, trace + moves[k].actions;
      }
    }

    /** `on_output` of the task service. */
    method OnOutput(chunk: string, offset: nat, next: Pc, moves: seq<Move>, k: nat, ghost start: State,
                    ghost trace: seq<Action>)
      returns (k': nat, ghost trace': seq<Action>)
      requires Fair(moves) && k <= |moves|
      requires world.(tail := Tail(Emitting(chunk, counter, next), offset, counter + |chunk|, sawLog))
               == Run(start, trace)
      modifies this`world, this`counter
      ensures View(next, offset) == Run(start, trace')
      ensures k <= k' <= |moves|
      ensures world.kind == old(world.kind)
      ensures k == |moves| ==> world.log == old(world.log) && world.status == old(world.status)
    {
      var recordOffset := counter;
      counter := counter + |chunk|;
      k', trace' := Elapse(Emitting(chunk, recordOffset, next), offset, moves, k, start, trace);
      RunSnoc(start, trace', TailCommit);
      world := world.(rows := world.rows + [LogRow(world.id, "stdout", recordOffset, chunk)]);
      trace' := trace' + [TailCommit];
    }

    /** `_drain_log` at the head of the loop, or with a code pending; `seen` is what the stat answers. */
    method DrainLog(offset: nat, pc: Pc, seen: bool, moves: seq<Move>, k: nat, ghost start: State,
                    ghost trace: seq<Action>)
      returns (newOffset: nat, k': nat, ghost trace': seq<Action>)
      requires Fair(moves) && k <= |moves| && world.kind == Ssh
      requires pc == AtHead || pc.Draining?
      requires View(pc, offset) == Run(start, trace)
      modifies this`world, this`counter, this`sawLog, this`drained
      ensures View(if pc == AtHead then CheckingStatus else Resolved(pc.found, pc.from, drained), newOffset) ==
                Run(start, trace')
      ensures k <= k' <= |moves| && world.kind == Ssh && (drained <==> seen && old(world.log).Some?)
      ensures k == |moves| ==> world.log == old(world.log) && world.status == old(world.status)
      ensures k == |moves| && seen ==> |LogText(world)| <= newOffset
    {
      ghost var a := if pc == AtHead then TailRead(seen) else TailDrain(seen);
      RunSnoc(start, trace, a);
      trace' := trace + [a];
      if pc == AtHead {
        ReadStepIs(world, offset, counter, sawLog, seen);
        sawLog := sawLog || world.log.Some?;
      } else {
        DrainStepIs(world, offset, counter, sawLog, seen, pc.found, pc.from);
      }
      k', drained := k, seen && world.log.Some?;
      var next := if pc == AtHead then CheckingStatus else Resolved(pc.found, pc.from, drained);
      var chunk := Unread(world, offset, seen);
      newOffset := offset + |chunk|;
      if chunk != "" {
        k', trace' := OnOutput(chunk, newOffset, next, moves, k, start, trace');
      }
    }

    /** `_check_completion`; the process is probed at a later await than the status file. */
    method CheckCompletion(offset: nat, rest: Answer, moves: seq<Move>, k: nat, ghost start: State,
                           ghost trace: seq<Action>)
      returns (finished: bool, k': nat, ghost trace': seq<Action>)
      requires Fair(moves) && k <= |moves| && world.kind == Ssh
      requires View(CheckingStatus, offset) == Run(start, trace)
      modifies this`world, this`pendingExitCode, this`found, this`from
      ensures View(if finished then Draining(found, from) else AtHead, offset) == Run(start, trace')
      ensures k <= k' <= |moves| && world.kind == Ssh && (finished ==> pendingExitCode == CodeOf(found))
      ensures k == |moves| && !finished ==>
                world.log == old(world.log) && (rest.statusSeen ==> world.status == None) && rest.reportedAlive
    {
      var answer := if k < |moves| then moves[k].answer else rest;
      k', trace' := Elapse(CheckingStatus, offset, moves, k, start, trace);
      var a := TailCheckStatus(answer.statusSeen, answer.readable);
      RunSnoc(start, trace', a);
      trace' := trace' + [a];
      from := offset;
      if world.status.Some? && answer.statusSeen {
        pendingExitCode := if answer.readable then world.status else None;
        found := if answer.readable then Recorded(world.status.value) else Unreadable;
        return true, k', trace';
      }
      finished, k', trace' := CheckAlive(offset, rest, moves, k', start, trace');
    }

    /** `_is_alive`, which answers no to a connection error. */
    method CheckAlive(offset: nat, rest: Answer, moves: seq<Move>, k: nat, ghost start: State, ghost trace: seq<Action>)
      returns (finished: bool, k': nat, ghost trace': seq<Action>)
      requires Fair(moves) && k <= |moves| && world.kind == Ssh && from == offset
      requires View(CheckingAlive, offset) == Run(start, trace)
      modifies this`world, this`pendingExitCode, this`found
      ensures View(if finished then Draining(found, from) else AtHead, offset) == Run(start, trace')
      ensures k <= k' <= |moves| && world.kind == Ssh && (finished ==> pendingExitCode == CodeOf(found))
      ensures k == |moves| ==> world == old(world) && (!finished ==> rest.reportedAlive)
    {
      var alive := if k < |moves| then moves[k].answer.reportedAlive else rest.reportedAlive;
      k', trace' := Elapse(CheckingAlive, offset, moves, k, start, trace);
      RunSnoc(start, trace', TailCheckAlive(alive));
      trace' := trace' + [TailCheckAlive(alive)];
      if !alive { pendingExitCode, found := None, ReportedDead(world.launcher); }
      finished := !alive;
    }

    /** `_run`.  `rest` is what the probes answer when nobody moves any more.  The loop is left suspended in
        its sleep after a whole round without a move: then, as far as its stats told it, it has read to the end
        of the log and there is no status file, and the process was reported alive. */
    method RunLoop(moves: seq<Move>, rest: Answer) returns (offset: nat, ghost trace: seq<Action>)
      requires Fair(moves) && world.kind == Ssh && completion == None
      modifies this
      ensures completion == None ==> View(AtHead, offset) == Run(old(View(AtHead, initialOffset)), trace)
      ensures completion == None && rest.logSeen ==> |LogText(world)| <= offset
      ensures completion == None ==> (rest.statusSeen ==> world.status == None) && rest.reportedAlive
      ensures completion.Some? ==>
                && View(Resolved(found, from, drained), offset) == Run(old(View(AtHead, initialOffset)), trace)
                && completion.value == CodeOf(found)
    {
      ghost var start := View(AtHead, initialOffset);
      offset, trace := initialOffset, [];
      var used := 0;
      while true
        invariant used <= |moves| && world.kind == Ssh && completion == None
        invariant View(AtHead, offset) == Run(start, trace)
        decreases |moves| - used
      {
        var calm := used == |moves|;
        var seen := if calm then rest.logSeen else moves[used].answer.logSeen;
        offset, used, trace := DrainLog(offset, AtHead, seen, moves, used, start, trace);
        var finished;
        finished, used, trace := CheckCompletion(offset, rest, moves, used, start, trace);
        if finished {
          seen := if used == |moves| then rest.logSeen else moves[used].answer.logSeen;
          offset, used, trace := DrainLog(offset, Draining(found, from), seen, moves, used, start, trace);
          if completion == None { completion := Some(pendingExitCode); }
          return;
        }
        if calm { return; }
        used, trace := Elapse(AtHead, offset, moves, used, start, trace);
      }
    }
  }

  /** From any reachable state: the records tile a prefix of the log whenever the loop is suspended, all of it
      if its last stat of the log succeeded; and once it resolves with an exit code, the launcher recorded that
      code, and what was written before the exit is persisted if and only if the stat in the final drain
      succeeded or nothing was left to read. */
  method TailFromReachable(handle: SSHDetachedHandle, moves: seq<Move>, rest: Answer) returns (offset: nat)
    requires Fair(moves) && handle.world.kind == Ssh && handle.completion == None
    requires Reachable(handle.View(AtHead, handle.initialOffset))
    modifies handle
    ensures Persisted(handle.world) <= LogText(handle.world)
    ensures handle.completion == None && rest.logSeen ==> Persisted(handle.world) == LogText(handle.world)
    ensures handle.completion.Some? && handle.completion.value.Some? ==>
              && handle.completion.value == handle.world.status
              && (handle.world.exitLength <= |Persisted(handle.world)| <==>
                    handle.drained || handle.world.exitLength <= handle.from)
  {
    ghost var start := handle.View(AtHead, handle.initialOffset);
    ghost var trace;
    offset, trace := handle.RunLoop(moves, rest);
    ghost var end := handle.View(if handle.completion == None then AtHead
                                 else Resolved(handle.found, handle.from, handle.drained), offset);
    ReachableRun(start, trace);
    ResolvedFacts(end);
    RecordsTileThePrefix(end);
    ReachableInv(end);
    PersistedIsMine(end);
    assert Persisted(end) == Persisted(handle.world);
  }
}
