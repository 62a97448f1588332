/** The watcher and `cancel` of the task service, run against surroundings that may move at each of their
    await points, are runs of the transition system of `TaskLifecycle`. */
module TaskService {
  import opened Model
  import opened TaskLifecycle

  /** The steps of everybody else, one sequence for each await point. */
  type Moves = seq<seq<Action>>

  ghost predicate NotTheWatcher(moves: Moves) {
    forall m, a :: m in moves && a in m ==> !a.WatcherStep? && !a.WatcherRaises?
  }

  predicate OfCall(a: Action, i: nat) {
    a == CancelStep(i) || a == CancelRaises(i) || a == TimeOut(i)
  }

  ghost predicate NotTheCall(moves: Moves, i: nat) {
    forall m, a :: m in moves && a in m ==> !OfCall(a, i)
  }

  /** Others move the watcher only by withdrawing the completion it awaits. */
  lemma {:induction false} OthersKeepWatcher(s: State, actions: seq<Action>)
    requires forall a :: a in actions ==> !a.WatcherStep? && !a.WatcherRaises?
    ensures var s' := Run(s, actions);
            && (!s.completion.Unset? ==> s'.watcher == s.watcher && s'.completion == s.completion)
            && (s.completion.Unset? ==> s'.watcher == if s'.completion.Withdrawn? then Aborted else s.watcher)
    decreases |actions|
  {
    if actions != [] {
      assert actions[0] in actions;
      OthersKeepWatcher(Step(s, actions[0]), actions[1..]);
    }
  }

  lemma {:induction false} OthersKeepCall(s: State, actions: seq<Action>, i: nat)
    requires i < |s.cancels| && forall a :: a in actions ==> !OfCall(a, i)
    ensures |s.cancels| <= |Run(s, actions).cancels| && Run(s, actions).cancels[i] == s.cancels[i]
    ensures !s.completion.Unset? ==> Run(s, actions).completion == s.completion
    ensures Run(s, actions).kind == s.kind
    decreases |actions|
  {
    if actions != [] {
      assert actions[0] in actions && forall a :: a in actions[1..] ==> a in actions;
      OthersKeepCall(Step(s, actions[0]), actions[1..], i);
    }
  }

  datatype WatchOutcome = Done | StillWaiting | Ended

  /** Where closing the handle or publishing the outcome raises in the watcher, if it does. */
  datatype WatchRaises = Nowhere | InClose | InPublish

  /** Where `handle.cancel()` raises of itself, if it does: before its wait for the exit, or after it. */
  datatype HandleRaises = NotAtAll | BeforeWait | AfterWait

  datatype CancelOutcome = Cancelled | NotFound | HandleRaised

  class Service {
    /** The stored task, the handle and its future, and where everybody is. */
    var world: State

    constructor (world: State)
      ensures this.world == world
    {
      this.world := world;
    }

    method Elapse(moves: Moves, k: nat, ghost start: State, ghost trace: seq<Action>)
      returns (k': nat, ghost trace': seq<Action>)
      requires k <= |moves| && world == Run(start, trace)
      modifies this
      ensures world == Run(start, trace') && trace <= trace'
      ensures k' == if k < |moves| then k + 1 else k
      ensures world == if k < |moves| then Run(old(world), moves[k]) else old(world)
    {
      k', trace' := k, trace;
      if k < |moves| {
        RunConcat(start, trace, moves[k]);
        world := Run(world, moves[k]);
        k', trace' := k + 1, trace + moves[k];
      }
    }

    /** An await of the watcher. */
    method WatcherAwaits(moves: Moves, k: nat, ghost start: State, ghost trace: seq<Action>)
      returns (k': nat, ghost trace': seq<Action>)
      requires NotTheWatcher(moves) && k <= |moves| && world == Run(start, trace)
      modifies this
      ensures world == Run(start, trace')
      ensures k' == if k < |moves| then k + 1 else k
      ensures old(world.completion).Unset? ==>
                world.watcher == if world.completion.Withdrawn? then Aborted else old(world.watcher)
      ensures !old(world.completion).Unset? ==>
                world.watcher == old(world.watcher) && world.completion == old(world.completion)
    {
      if k < |moves| {
        assert moves[k] in moves;
        OthersKeepWatcher(world, moves[k]);
      }
      k', trace' := Elapse(moves, k, start, trace);
    }

    /** `_watch_task` and `_watch_detached`: wait, close the handle, read the task, decide, publish, store,
        remove the handle. */
    method Watch(raises: WatchRaises, moves: Moves) returns (outcome: WatchOutcome, ghost trace: seq<Action>)
      requires NotTheWatcher(moves) && world.watcher == AwaitingExit && !world.completion.Withdrawn?
      modifies this
      ensures world == Run(old(world), trace)
      ensures match outcome
              case Done => world.watcher == WatcherDone && world.completion.Set? && raises == Nowhere
              case StillWaiting => world.watcher == AwaitingExit && world.completion.Unset?
              case Ended =>
                world.watcher == Aborted &&
                (if raises == Nowhere then world.completion.Withdrawn? else !world.completion.Unset?)
    {
      ghost var start := world;
      trace := [];
      var k := 0;
      while world.completion.Unset? && k < |moves|
        invariant k <= |moves| && world == Run(start, trace)
        invariant world.watcher == if world.completion.Withdrawn? then Aborted else AwaitingExit
        decreases |moves| - k
      {
        k, trace := WatcherAwaits(moves, k, start, trace);
      }
      if world.completion.Unset? { return StillWaiting, trace; }
      if world.completion.Withdrawn? { return Ended, trace; }
      var exitCode := world.completion.code;
      RunSnoc(start, trace, WatcherStep);
      trace := trace + [WatcherStep];
      world := world.(watcher := Woken(exitCode));
      k, trace := WatcherAwaits(moves, k, start, trace);
      if raises == InClose {
        RunSnoc(start, trace, WatcherRaises);
        trace := trace + [WatcherRaises];
        world := world.(watcher := Aborted);
        return Ended, trace;
      }
      outcome, trace := Finish(exitCode, raises == InPublish, moves, k, start, trace);
    }

    /** The part after `handle.close()`. */
    method Finish(exitCode: Option<int>, raises: bool, moves: Moves, k: nat, ghost start: State,
                  ghost trace: seq<Action>)
      returns (outcome: WatchOutcome, ghost trace': seq<Action>)
      requires NotTheWatcher(moves) && k <= |moves| && world == Run(start, trace) && world.watcher == Woken(exitCode)
      requires world.completion.Set?
      modifies this
      ensures world == Run(start, trace') && world.completion.Set?
      ensures outcome == (if raises then Ended else Done)
      ensures world.watcher == if raises then Aborted else WatcherDone
    {
      var task := world.stored;
      var read := task.state;
      task := task.(exitCode := exitCode);
      if task.state == CANCELLING {
        task := task.(state := CANCELLED);
      } else if world.kind == Detached && exitCode == None {
        task := task.(state := LOST);
      } else if exitCode == Some(0) {
        task := task.(state := SUCCEEDED);
      } else {
        task := task.(state := FAILED);
      }
      RunSnoc(start, trace, WatcherStep);
      trace' := trace + [WatcherStep];
      world := world.(watcher := Decided(task, read));
      var k';
      k', trace' := WatcherAwaits(moves, k, start, trace');
      if raises {
        RunSnoc(start, trace', WatcherRaises);
        trace' := trace' + [WatcherRaises];
        world := world.(watcher := Aborted);
        return Ended, trace';
      }
      RunSnoc(start, trace', WatcherStep);
      trace' := trace' + [WatcherStep];
      world := world.(stored := task, stores := world.stores + [ByWatcher(read, task.state)], watcher := Popping);
      k', trace' := WatcherAwaits(moves, k', start, trace');
      RunSnoc(start, trace', WatcherStep);
      trace' := trace' + [WatcherStep];
      world := world.(handleRegistered := false, watcher := WatcherDone);
      outcome := Done;
    }

    /** An await of the i-th cancel call. */
    method CallAwaits(i: nat, moves: Moves, k: nat, ghost start: State, ghost trace: seq<Action>)
      returns (k': nat, ghost trace': seq<Action>)
      requires NotTheCall(moves, i) && k <= |moves| && i < |world.cancels| && world == Run(start, trace)
      modifies this
      ensures world == Run(start, trace') && i < |world.cancels| && world.cancels[i] == old(world.cancels[i])
      ensures trace <= trace'
      ensures world.kind == old(world.kind)
      ensures !old(world.completion).Unset? ==> world.completion == old(world.completion)
      ensures k' == if k < |moves| then k + 1 else k
    {
      if k < |moves| {
        assert moves[k] in moves;
        OthersKeepCall(world, moves[k], i);
      }
      k', trace' := Elapse(moves, k, start, trace);
    }

    /** `cancel`, as the i-th call.  `patience` is the number of turns its wait for the exit lasts. */
    method Cancel(i: nat, patience: nat, raises: HandleRaises, moves: Moves)
      returns (outcome: CancelOutcome, ghost trace: seq<Action>, ghost read: Record)
      requires NotTheCall(moves, i) && i < |world.cancels| && world.cancels[i] == Fetching
      modifies this
      ensures world == Run(old(world), trace) && i < |world.cancels|
      ensures match outcome
              case Cancelled =>
                && raises == NotAtAll && world.cancels[i] == CancelDone && world.stored.state == CANCELLED
                && (world.completion.Set? || (world.kind == Detached && world.completion.Withdrawn?))
              case HandleRaised =>
                && world.cancels[i] == Raised
                && (raises != NotAtAll || world.completion.Withdrawn? ||
                    (world.kind == Process && world.completion.Unset?))
              case NotFound =>
                world.cancels[i] == Refused && world.stored == Run(old(world), trace[..|trace| - 1]).stored
      ensures outcome == NotFound ==> trace != []
      ensures exists n :: 0 <= n <= |trace| && read == Run(old(world), trace[..n]).stored
      ensures outcome == Cancelled ==> world.stored == read.(state := CANCELLED)
    {
      ghost var start := world;
      trace := [];
      var k;
      k, trace := CallAwaits(i, moves, 0, start, trace);
      var task := world.stored;
      read := task;
      ghost var before := trace;
      RunSnoc(start, trace, CancelStep(i));
      trace := trace + [CancelStep(i)];
      if !world.handleRegistered {
        assert trace[..|trace| - 1] + [CancelStep(i)] == trace;
        RunSnoc(start, trace[..|trace| - 1], CancelStep(i));
        world := world.(cancels := world.cancels[i := Refused]);
        assert trace[..|before|] == before;
        return NotFound, trace, read;
      }
      task := task.(state := CANCELLING);
      world := world.(cancels := world.cancels[i := Marking(task)]);
      k, trace := CallAwaits(i, moves, k, start, trace);
      RunSnoc(start, trace, CancelStep(i));
      trace := trace + [CancelStep(i)];
      world := world.(stored := task, stores := world.stores + [Marks(i)],
          cancels := world.cancels[i := Killing(task)]);
      var killed;
      k, killed, trace := CancelHandle(i, task, patience, raises, moves, k, start, trace);
      if killed { trace := FinishCancel(i, task, moves, k, start, trace); }
      outcome := if killed then Cancelled else HandleRaised;
      assert trace[..|before|] == before;
    }

    /** `handle.cancel()`, false if it raises: waits for the exit.  If the wait runs out, that is an exception
        for a local process; for a detached task the completion is withdrawn and the handle closed.  Where
        another call has withdrawn it, the wait raises. */
    method CancelHandle(i: nat, task: Record, patience: nat, raises: HandleRaises, moves: Moves, k: nat,
                        ghost start: State, ghost trace: seq<Action>)
      returns (k': nat, killed: bool, ghost trace': seq<Action>)
      requires NotTheCall(moves, i) && k <= |moves| && i < |world.cancels| && world == Run(start, trace)
      requires world.cancels[i] == Killing(task)
      modifies this
      ensures world == Run(start, trace') && i < |world.cancels| && k' <= |moves| && world.kind == old(world.kind)
      ensures trace <= trace'
      ensures killed ==> raises == NotAtAll && (world.cancels[i] == Closing(task) || world.cancels[i] == Killing(task))
      ensures killed ==> if world.cancels[i].Killing? then world.completion.Set?
                         else world.kind == Detached && !world.completion.Unset?
      ensures !killed ==> world.cancels[i] == Raised
      ensures !killed ==> raises != NotAtAll || world.completion.Withdrawn? ||
                          (world.kind == Process && world.completion.Unset?)
    {
      k', trace' := k, trace;
      if raises == BeforeWait {
        RunSnoc(start, trace, CancelRaises(i));
        trace' := trace + [CancelRaises(i)];
        world := world.(cancels := world.cancels[i := Raised]);
        return k', false, trace';
      }
      var waited := 0;
      while world.completion.Unset? && waited < patience
        invariant k' <= |moves| && world == Run(start, trace') && world.kind == old(world.kind)
        invariant i < |world.cancels| && world.cancels[i] == Killing(task) && trace <= trace'
      {
        k', trace' := CallAwaits(i, moves, k', start, trace');
        waited := waited + 1;
      }
      if world.completion.Unset? && world.kind == Detached {
        RunSnoc(start, trace', TimeOut(i));
        trace' := trace' + [TimeOut(i)];
        world := WaitRunsOut(world, i);
        k', trace' := CallAwaits(i, moves, k', start, trace');
        killed := raises == NotAtAll;
      } else {
        killed := world.completion.Set? && raises == NotAtAll;
      }
      if !killed {
        RunSnoc(start, trace', CancelRaises(i));
        trace' := trace' + [CancelRaises(i)];
        world := world.(cancels := world.cancels[i := Raised]);
      }
    }

    /** The part after `handle.cancel()`. */
    method FinishCancel(i: nat, marked: Record, moves: Moves, k: nat, ghost start: State, ghost trace: seq<Action>)
      returns (ghost trace': seq<Action>)
      requires NotTheCall(moves, i) && k <= |moves| && i < |world.cancels| && world == Run(start, trace)
      requires world.cancels[i] == Closing(marked) || (world.cancels[i] == Killing(marked) && world.completion.Set?)
      requires !world.completion.Unset?
      modifies this
      ensures world == Run(start, trace') && i < |world.cancels|
      ensures world.cancels[i] == CancelDone && world.stored == marked.(state := CANCELLED) && trace <= trace'
      ensures world.completion == old(world.completion) && world.kind == old(world.kind)
    {
      var task := marked.(state := CANCELLED);
      RunSnoc(start, trace, CancelStep(i));
      trace' := trace + [CancelStep(i)];
      world := world.(handleRegistered := false, cancels := world.cancels[i := Finishing(task)]);
      var k';
      k', trace' := CallAwaits(i, moves, k, start, trace');
      RunSnoc(start, trace', CancelStep(i));
      trace' := trace' + [CancelStep(i)];
      world := world.(stored := task, stores := world.stores + [Finishes(i)],
          cancels := world.cancels[i := CancelDone]);
    }
  }

  /** Whatever everybody else does, a watcher that runs to its end keeps the invariant, has removed the handle
      and leaves an outcome that agrees with the exit code; one that is ended leaves the outcome to the calls. */
  method WatchFrom(service: Service, raises: WatchRaises, moves: Moves) returns (outcome: WatchOutcome)
    requires NotTheWatcher(moves) && service.world.watcher == AwaitingExit && Inv(service.world)
    modifies service
    ensures Inv(service.world) && OutcomeMatches(service.world, service.world.stored)
    ensures outcome == Done ==>
              && !service.world.handleRegistered && service.world.completion.Set?
              && service.world.stored.state != RUNNING
    ensures outcome == Ended && raises == Nowhere ==>
              service.world.completion.Withdrawn? && service.world.kind == Detached &&
              (service.world.stored.state == CANCELLING || service.world.stored.state == CANCELLED)
  {
    ghost var start := service.world;
    ghost var trace;
    outcome, trace := service.Watch(raises, moves);
    RunKeeps(start, trace);
  }
}
