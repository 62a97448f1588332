/** The loop of `SSHTmuxSessionHandle._run`, run against surroundings that may move at each of its await
    points, is a run of the transition system of a tmux session. */
module TmuxTailer {
  import opened Model
  import opened TerminalFrames
  import opened TmuxSession

  /** What the stat of the log over SFTP and the status request answer. */
  datatype Answer = Answer(logSeen: bool, alive: bool, exitCode: Option<int>)

  /** What everything else does at one await point, and the answers there. */
  datatype Move = Move(actions: seq<Action>, answer: Answer)

  /** Not a step of the i-th tailer, and the process goes on. */
  predicate Environmental(a: Action, i: nat) {
    !a.Crash? && (a.FinishAttach? || a.ReadLog? || a.Commit? || a.EndTailer? ==> a.i != i)
  }

  ghost predicate Fair(moves: seq<Move>, i: nat) {
    forall m, a :: m in moves && a in m.actions ==> Environmental(a, i)
  }

  lemma {:induction false} EnvironmentKeepsTailer(s: State, actions: seq<Action>, i: nat)
    requires i < |s.tailers| && forall a :: a in actions ==> Environmental(a, i)
    ensures |s.tailers| <= |Run(s, actions).tailers| && Run(s, actions).tailers[i] == s.tailers[i]
    decreases |actions|
  {
    if actions != [] {
      assert actions[0] in actions;
      EnvironmentKeepsTailer(Step(s, actions[0]), actions[1..], i);
    }
  }

  class SSHTmuxSessionHandle {
    const initialOutputOffset: nat
    /** The position of this handle's tailer in the world. */
    const index: nat
    var completion: Option<Option<int>>
    var world: State

    constructor (world: State, index: nat)
      requires index < |world.tailers| && world.tailers[index].pc == Idle
      ensures this.world == world && this.index == index && completion == None
      ensures initialOutputOffset == world.tailers[index].offset && At(Idle, initialOutputOffset)
    {
      this.world, this.index, completion := world, index, None;
      initialOutputOffset := world.tailers[index].offset;
    }

    /** Where the loop is. */
    predicate At(pc: TailPc, offset: nat)
      reads this
    {
      index < |world.tailers| && world.tailers[index].offset == offset && world.tailers[index].pc == pc
    }

    method Elapse(pc: TailPc, offset: nat, moves: seq<Move>, k: nat, ghost start: State, ghost trace: seq<Action>)
      returns (k': nat, ghost trace': seq<Action>)
      requires Fair(moves, index) && k <= |moves| && At(pc, offset) && world == Run(start, trace)
      modifies this`world
      ensures At(pc, offset) && world == Run(start, trace')
      ensures k' == if k < |moves| then k + 1 else k
      ensures k == |moves| ==> world == old(world)
      ensures trace' == trace + if k < |moves| then moves[k].actions else []
    {
      k', trace' := k, trace;
      if k < |moves| {
        assert moves[k] in moves;
        EnvironmentKeepsTailer(world, moves[k].actions, index);
        RunConcat(start, trace, moves[k].actions);
        world := Run(world, moves[k].actions);
        k', trace' := k + 1, trace + moves[k].actions;
      }
    }

    /** `_drain_log`: if the log is found, hand everything beyond the offset to `on_output`, which appends a
        frame. */
    method DrainLog(offset: nat, seen: bool, moves: seq<Move>, k: nat, ghost start: State, ghost trace: seq<Action>)
      returns (newOffset: nat, k': nat, ghost trace': seq<Action>)
      requires Fair(moves, index) && k <= |moves| && At(Idle, offset) && world == Run(start, trace)
      modifies this`world
      ensures At(Idle, newOffset) && world == Run(start, trace')
      ensures k <= k' <= |moves| && offset <= newOffset &&
                (if seen then old(|world.log|) <= newOffset else newOffset == offset)
      ensures k == |moves| ==> world.log == old(world.log)
      ensures NoAttach(moves) && NoneBegins(trace) ==> NoneBegins(trace')
    {
      k', trace' := k, trace;
      if !seen || |world.log| <= offset { newOffset := offset; return; }
      var chunk := world.log[offset..];
      newOffset := |world.log|;
      RunSnoc(start, trace', ReadLog(index, true));
      trace' := trace' + [ReadLog(index, true)];
      world := Set(world, index, world.tailers[index].(pc := Emitting(chunk)));
      NoneBeginsConcat(trace, [ReadLog(index, true)]);
      ghost var before := trace';
      k', trace' := Elapse(Emitting(chunk), offset, moves, k', start, trace');
      NoneBeginsIn(moves, k);
      NoneBeginsConcat(before, if k < |moves| then moves[k].actions else []);
      RunSnoc(start, trace', Commit(index));
      NoneBeginsConcat(trace', [Commit(index)]);
      trace' := trace' + [Commit(index)];
      world := Step(world, Commit(index));
    }

    /** `_run`.  `rest` is what is answered when nobody moves any more.  The loop is left suspended in its sleep
        after a whole round without a move; `offset` is where it ends.  If it resolves, `last` says where its
        final drain began, how long the log was then, and whether the stat found it. */
    method RunLoop(moves: seq<Move>, rest: Answer) returns (offset: nat, last: Drain, ghost trace: seq<Action>)
      requires Fair(moves, index) && completion == None && At(Idle, initialOutputOffset)
      modifies this`world, this`completion
      ensures world == Run(old(world), trace) && At(if completion == None then Idle else Ended, offset)
      ensures completion == None ==> rest.alive && (rest.logSeen ==> |world.log| <= offset)
      ensures completion.Some? ==>
                || (!rest.alive && completion == Some(rest.exitCode))
                || exists m :: m in moves && !m.answer.alive && completion == Some(m.answer.exitCode)
      ensures completion.Some? ==>
                && (last.length <= offset <==> last.seen || last.length <= last.from)
                && (!last.seen ==> offset == last.from)
                && Ends(old(world), trace, offset)
      ensures moves == [] ==> world.log == old(world.log)
      ensures moves == [] && !rest.alive ==>
                completion == Some(rest.exitCode) && last.seen == rest.logSeen && last.length == |world.log|
      ensures moves == [] && !rest.alive && !rest.logSeen ==> offset == initialOutputOffset
      ensures NoAttach(moves) ==> NoneBegins(trace)
    {
      ghost var start := world;
      offset, last, trace := initialOutputOffset, Drain(0, 0, true), [];
      var used := 0;
      while true
        invariant used <= |moves| && completion == None && At(Idle, offset)
        invariant moves == [] ==> world.log == start.log && offset == initialOutputOffset && (used == 0)
        invariant world == Run(start, trace)
        invariant NoAttach(moves) ==> NoneBegins(trace)
        decreases |moves| - used
      {
        var calm := used == |moves|;
        offset, used, trace := DrainLog(offset, AnswerAt(moves, used, rest).logSeen, moves, used, start, trace);
        var status := AnswerAt(moves, used, rest);
        used, trace := Await(offset, moves, used, start, trace);
        if !status.alive {
          last := Drain(offset, |world.log|, AnswerAt(moves, used, rest).logSeen);
          offset, used, trace := DrainLog(offset, last.seen, moves, used, start, trace);
          Ending(start, trace, offset);
          Resolve(status.exitCode, offset);
          RunSnoc(start, trace, EndTailer(index));
          NoneBeginsConcat(trace, [EndTailer(index)]);
          trace := trace + [EndTailer(index)];
          return;
        }
        if calm { return; }
        used, trace := Await(offset, moves, used, start, trace);
      }
    }

    /** With one more step, the end of its tailer, the trace ends at `offset`. */
    ghost predicate Ends(start: State, trace: seq<Action>, offset: nat) {
      && trace != [] && trace[|trace| - 1] == EndTailer(index)
      && var before := Run(start, trace[..|trace| - 1]);
         index < |before.tailers| && before.tailers[index].pc == Idle && before.tailers[index].offset == offset
    }

    lemma Ending(start: State, trace: seq<Action>, offset: nat)
      requires At(Idle, offset) && world == Run(start, trace)
      ensures Ends(start, trace + [EndTailer(index)], offset)
    {
      assert (trace + [EndTailer(index)])[..|trace|] == trace;
    }

    /** The status request, or the sleep. */
    method Await(offset: nat, moves: seq<Move>, k: nat, ghost start: State, ghost trace: seq<Action>)
      returns (k': nat, ghost trace': seq<Action>)
      requires Fair(moves, index) && k <= |moves| && At(Idle, offset) && world == Run(start, trace)
      modifies this`world
      ensures At(Idle, offset) && world == Run(start, trace')
      ensures k' == if k < |moves| then k + 1 else k
      ensures k == |moves| ==> world == old(world)
      ensures NoAttach(moves) && NoneBegins(trace) ==> NoneBegins(trace')
    {
      k', trace' := Elapse(Idle, offset, moves, k, start, trace);
      NoneBeginsIn(moves, k);
      NoneBeginsConcat(trace, if k < |moves| then moves[k].actions else []);
    }

    /** `_resolve`; the loop is over. */
    method Resolve(code: Option<int>, offset: nat)
      requires At(Idle, offset) && completion == None
      modifies this`completion, this`world
      ensures completion == Some(code) && world == Step(old(world), EndTailer(index)) && At(Ended, offset)
    {
      completion := Some(code);
      world := Step(world, EndTailer(index));
    }
  }

  /** A final drain: where it began, how long the log was, whether it was found. */
  datatype Drain = Drain(from: nat, length: nat, seen: bool)

  function AnswerAt(moves: seq<Move>, k: nat, rest: Answer): Answer {
    if k < |moves| then moves[k].answer else rest
  }

  /** No reattachment begins. */
  ghost predicate NoneBegins(actions: seq<Action>) {
    forall a :: a in actions ==> !a.BeginAttach?
  }

  ghost predicate NoAttach(moves: seq<Move>) {
    forall m :: m in moves ==> NoneBegins(m.actions)
  }

  lemma NoneBeginsConcat(first: seq<Action>, second: seq<Action>)
    ensures NoneBegins(first + second) <==> NoneBegins(first) && NoneBegins(second)
  {
    assert forall a :: a in first + second <==> a in first || a in second;
  }

  lemma NoneBeginsIn(moves: seq<Move>, k: nat)
    requires k <= |moves|
    ensures NoAttach(moves) ==> NoneBegins(if k < |moves| then moves[k].actions else [])
  {
    if k < |moves| { assert moves[k] in moves; }
  }

  lemma {:induction false} NoneBeginsIsSerial(s: State, actions: seq<Action>)
    requires NoneBegins(actions)
    ensures Serial(s, actions)
    decreases |actions|
  {
    if actions != [] {
      assert actions[0] in actions;
      NoneBeginsIsSerial(Step(s, actions[0]), actions[1..]);
    }
  }

  /** A tailer that is the only one from a sound state on: the output frames are a prefix of the remote log,
      and all of the log whenever the loop is suspended after a stat that found it.  When it has resolved,
      everything in the log at its final drain is persisted if and only if the stat found the log or nothing
      was left to read. */
  method TailAlone(handle: SSHTmuxSessionHandle, moves: seq<Move>, rest: Answer) returns (offset: nat, last: Drain)
    requires Fair(moves, handle.index) && NoAttach(moves)
    requires handle.completion == None && handle.At(Idle, handle.initialOutputOffset)
    requires Inv(handle.world) && OneTailer(handle.world, |OutputText(handle.world.frames)|)
    modifies handle
    ensures Inv(handle.world) && OutputText(handle.world.frames) <= handle.world.log && !Twice(handle.world.ranges)
    ensures |OutputText(handle.world.frames)| == offset
    ensures handle.completion == None && rest.logSeen ==> OutputText(handle.world.frames) == handle.world.log
    ensures handle.completion.Some? ==> (last.length <= offset <==> last.seen || last.length <= last.from)
    ensures moves == [] ==> handle.world.log == old(handle.world.log)
    ensures moves == [] && !rest.alive && !rest.logSeen ==>
              handle.completion == Some(rest.exitCode) && offset == handle.initialOutputOffset
  {
    ghost var start := handle.world;
    ghost var trace;
    offset, last, trace := handle.RunLoop(moves, rest);
    NoneBeginsIsSerial(start, trace);
    SerialRunKeeps(start, trace);
    RunKeeps(start, trace);
    TilesIffNeverTwice(handle.world.ranges, |handle.world.log|);
    TiledLength(handle.world.log, handle.world.ranges, OutputText(handle.world.frames));
    if handle.completion == None {
      assert Live(handle.world.tailers[handle.index]);
    } else {
      EndedAt(handle.index, start, trace, offset);
    }
  }

  /** Ending a tailer leaves the frames; before it, its position was the length of the output. */
  lemma EndedAt(index: nat, start: State, trace: seq<Action>, offset: nat)
    requires trace != [] && trace[|trace| - 1] == EndTailer(index) && NoneBegins(trace)
    requires Inv(start) && OneTailer(start, |OutputText(start.frames)|)
    requires var before := Run(start, trace[..|trace| - 1]);
             index < |before.tailers| && before.tailers[index].pc == Idle && before.tailers[index].offset == offset
    ensures |OutputText(Run(start, trace).frames)| == offset
  {
    var front := trace[..|trace| - 1];
    assert trace == front + [EndTailer(index)];
    NoneBeginsConcat(front, [EndTailer(index)]);
    NoneBeginsIsSerial(start, front);
    SerialRunKeeps(start, front);
    RunSnoc(start, front, EndTailer(index));
    assert Live(Run(start, front).tailers[index]);
  }

  /** The stat of the log fails in the final drain: the session is over and its output missing. */
  method FinalStatLosesOutput() returns (handle: SSHTmuxSessionHandle)
    ensures handle.completion == Some(Some(0)) && handle.world.log == "x" && OutputText(handle.world.frames) == ""
  {
    var world := State("s", "x", [], [Tailer(0, Idle, 0)], []);
    handle := new SSHTmuxSessionHandle(world, 0);
    var offset, last := TailAlone(handle, [], Answer(false, false, Some(0)));
  }
}
