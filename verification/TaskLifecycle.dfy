/** The watcher of a task and any number of `cancel` calls, interleaved at their await points, after
    `start` has returned (services/task.py).  Each of them works on its own copy of the task record and
    writes the whole copy back. */
module TaskLifecycle {
  import opened Model

  datatype Record = Record(state: TaskState, exitCode: Option<int>)

  /** `_watch_task` watches a local process, `_watch_detached` a detached one. */
  datatype Kind = Process | Detached

  /** The future the handle resolves, for a local process its exit.  A cancel call of a detached handle that
      waits for it in vain cancels it for everybody. */
  datatype Completion = Unset | Set(code: Option<int>) | Withdrawn

  datatype WatcherPc =
    | AwaitingExit
    | Woken(code: Option<int>)          // in `handle.close()`, before reading the task
    | Decided(copy: Record, read: TaskState)   // outcome chosen from what was read and emitted, not stored
    | Popping                           // stored, handle not yet removed
    | WatcherDone
    | Aborted                           // ended by an exception, nothing stored

  datatype CancelPc =
    | Fetching
    | Marking(copy: Record)             // CANCELLING not yet stored
    | Killing(copy: Record)             // CANCELLING stored, in `handle.cancel()`
    | Closing(copy: Record)             // waited in vain for the completion, in `handle.close()`
    | Finishing(copy: Record)           // CANCELLED not yet stored
    | CancelDone
    | Refused                           // no handle: NotFoundError, nothing written
    | Raised                            // `handle.cancel()` raised

  /** One write of the stored task: by `start`, by the watcher (from the state it had read), by the i-th cancel
      call when it marks the task and when it finishes. */
  datatype Store = ByStart | ByWatcher(read: TaskState, wrote: TaskState) | Marks(i: nat) | Finishes(i: nat)

  /** `stores` is history: all writes, in order. */
  datatype State = State(
    kind: Kind, stored: Record, handleRegistered: bool, completion: Completion,
    watcher: WatcherPc, cancels: seq<CancelPc>, stores: seq<Store>)

  datatype Action =
    | Complete(code: Option<int>)
    | WatcherStep
    | WatcherRaises                     // closing the handle or publishing the outcome raises
    | CallCancel
    | CancelStep(i: nat)
    | TimeOut(i: nat)                   // the wait of the i-th call for the completion of a detached task
    | CancelRaises(i: nat)

  /** `start` has returned: RUNNING is stored, the handle registered, the watcher created. */
  function Started(kind: Kind): State {
    State(kind, Record(RUNNING, None), true, Unset, AwaitingExit, [], [ByStart])
  }

  function Verdict(kind: Kind, seen: TaskState, code: Option<int>): TaskState {
    if seen == CANCELLING then CANCELLED
    else if code == Some(0) then SUCCEEDED
    else if code == None && kind == Detached then LOST
    else FAILED
  }

  function WatcherMoves(s: State): State {
    match s.watcher
    case AwaitingExit =>
      if s.completion.Set? then s.(watcher := Woken(s.completion.code)) else s
    case Woken(code) =>
      s.(watcher := Decided(Record(Verdict(s.kind, s.stored.state, code), code), s.stored.state))
    case Decided(copy, read) =>
      s.(stored := copy, stores := s.stores + [ByWatcher(read, copy.state)], watcher := Popping)
    case Popping =>
      s.(handleRegistered := false, watcher := WatcherDone)
    case _ => s
  }

  /** `handle.cancel()` has returned. */
  function Unregister(s: State, i: nat, copy: Record): State
    requires i < |s.cancels|
  {
    s.(handleRegistered := false, cancels := s.cancels[i := Finishing(copy.(state := CANCELLED))])
  }

  function CancelMoves(s: State, i: nat): State
    requires i < |s.cancels|
  {
    match s.cancels[i]
    case Fetching =>
      if !s.handleRegistered then s.(cancels := s.cancels[i := Refused])
      else s.(cancels := s.cancels[i := Marking(Record(CANCELLING, s.stored.exitCode))])
    case Marking(copy) =>
      s.(stored := copy, stores := s.stores + [Marks(i)], cancels := s.cancels[i := Killing(copy)])
    case Killing(copy) =>
      if s.completion.Set? then Unregister(s, i, copy) else s
    case Closing(copy) => Unregister(s, i, copy)
    case Finishing(copy) =>
      s.(stored := copy, stores := s.stores + [Finishes(i)], cancels := s.cancels[i := CancelDone])
    case _ => s
  }

  /** The wait of the i-th call runs out.  The watcher awaits the same future and ends with it; so do other
      calls in `handle.cancel()`, which can only raise (or run out in the same turn). */
  function WaitRunsOut(s: State, i: nat): State
    requires i < |s.cancels| && s.cancels[i].Killing?
  {
    var waited := s.(cancels := s.cancels[i := Closing(s.cancels[i].copy)]);
    if s.completion.Unset? then waited.(completion := Withdrawn, watcher := Aborted) else waited
  }

  function Step(s: State, a: Action): State {
    match a
    case Complete(code) => if s.completion.Unset? then s.(completion := Set(code)) else s
    case WatcherStep => WatcherMoves(s)
    case WatcherRaises => if s.watcher.Woken? || s.watcher.Decided? then s.(watcher := Aborted) else s
    case CallCancel => s.(cancels := s.cancels + [Fetching])
    case CancelStep(i) => if i < |s.cancels| then CancelMoves(s, i) else s
    case TimeOut(i) =>
      if s.kind == Detached && i < |s.cancels| && s.cancels[i].Killing? then WaitRunsOut(s, i) else s
    case CancelRaises(i) =>
      if i < |s.cancels| && (s.cancels[i].Killing? || s.cancels[i].Closing?) then
        s.(cancels := s.cancels[i := Raised])
      else s
  }

  function Run(s: State, actions: seq<Action>): State
    decreases |actions|
  {
    if actions == [] then s else Run(Step(s, actions[0]), actions[1..])
  }

  lemma {:induction false} RunConcat(s: State, first: seq<Action>, second: seq<Action>)
    ensures Run(s, first + second) == Run(Run(s, first), second)
    decreases |first|
  {
    if first == [] {
      assert first + second == second;
    } else {
      RunConcat(Step(s, first[0]), first[1..], second);
      assert (first + second)[1..] == first[1..] + second;
    }
  }

  lemma RunSnoc(s: State, trace: seq<Action>, a: Action)
    ensures Run(s, trace + [a]) == Step(Run(s, trace), a)
  {
    RunConcat(s, trace, [a]);
    assert [a][1..] == [];
  }

  // ---- What every step keeps

  ghost predicate CancelInv(c: CancelPc) {
    && (c.Marking? ==> c.copy.state == CANCELLING)
    && (c.Killing? ==> c.copy.state == CANCELLING)
    && (c.Closing? ==> c.copy.state == CANCELLING)
    && (c.Finishing? ==> c.copy.state == CANCELLED)
  }

  ghost predicate OutcomeMatches(s: State, r: Record) {
    && (r.state == SUCCEEDED ==> s.completion == Set(Some(0)) && r.exitCode == Some(0))
    && (r.state == FAILED ==> s.completion == Set(r.exitCode) && r.exitCode != Some(0) &&
                              (r.exitCode == None ==> s.kind == Process))
    && (r.state == LOST ==> s.completion == Set(None) && s.kind == Detached)
  }

  /** Past the store of CANCELLING, before the store of CANCELLED. */
  predicate Marked(c: CancelPc) {
    c.Killing? || c.Closing? || c.Finishing? || c.Raised?
  }

  /** Has removed the handle. */
  predicate Popped(c: CancelPc) {
    c.Finishing? || c.CancelDone?
  }

  ghost predicate Inv(s: State) {
    CoreInv(s) && HandleInv(s) && StoresInv(s)
  }

  ghost predicate CoreInv(s: State) {
    && (forall i | 0 <= i < |s.cancels| :: CancelInv(s.cancels[i]))
    && (s.watcher.Woken? ==> s.completion == Set(s.watcher.code))
    && (s.watcher.Decided? ==>
          && TerminalState(s.watcher.copy.state) && OutcomeMatches(s, s.watcher.copy)
          && (s.watcher.copy.state == CANCELLED <==> s.watcher.read == CANCELLING))
    && (s.stored.state == RUNNING ==> !s.watcher.Popping? && !s.watcher.WatcherDone?)
    && (TerminalState(s.stored.state) || s.stored.state == CANCELLING || s.stored.state == RUNNING)
    && OutcomeMatches(s, s.stored)
    && (s.completion.Unset? ==> s.watcher.AwaitingExit?)
    && (s.completion.Withdrawn? ==> s.watcher.Aborted? && s.kind == Detached)
  }

  /** The handle is gone exactly once the watcher or a call has removed it, and nobody does before the
      completion is set or withdrawn. */
  ghost predicate HandleInv(s: State) {
    && (s.handleRegistered ==> !s.watcher.WatcherDone? && forall i | 0 <= i < |s.cancels| :: !Popped(s.cancels[i]))
    && (!s.handleRegistered ==> s.watcher.WatcherDone? || exists i | 0 <= i < |s.cancels| :: Popped(s.cancels[i]))
    && (!s.handleRegistered ==> !s.completion.Unset?)
    && (forall i | 0 <= i < |s.cancels| && s.cancels[i].Closing? :: !s.completion.Unset?)
  }

  function Wrote(store: Store): TaskState {
    match store
    case ByStart => RUNNING
    case ByWatcher(_, wrote) => wrote
    case Marks(_) => CANCELLING
    case Finishes(_) => CANCELLED
  }

  predicate WatcherStored(s: State) {
    s.watcher.Popping? || s.watcher.WatcherDone?
  }

  function WatcherWrites(stores: seq<Store>): nat {
    if stores == [] then 0 else WatcherWrites(stores[..|stores| - 1]) + if Last(stores).ByWatcher? then 1 else 0
  }

  /** The watcher writes a terminal state, CANCELLED exactly after reading CANCELLING. */
  predicate Honest(stores: seq<Store>) {
    stores == [] || (Honest(stores[..|stores| - 1]) && HonestStore(Last(stores)))
  }

  predicate HonestStore(store: Store) {
    store.ByWatcher? ==> TerminalState(store.wrote) && (store.wrote == CANCELLED <==> store.read == CANCELLING)
  }

  lemma StoresSnoc(stores: seq<Store>, store: Store)
    ensures WatcherWrites(stores + [store]) == WatcherWrites(stores) + if store.ByWatcher? then 1 else 0
    ensures Honest(stores + [store]) <==> Honest(stores) && HonestStore(store)
  {
    assert (stores + [store])[..|stores|] == stores;
  }

  /** The last write is what is stored; the watcher writes once; who wrote last is past that write. */
  ghost predicate StoresInv(s: State) {
    && s.stores != [] && Wrote(Last(s.stores)) == s.stored.state
    && WatcherWrites(s.stores) == (if WatcherStored(s) then 1 else 0) && Honest(s.stores)
    && (Last(s.stores) == ByStart ==>
          && !WatcherStored(s) && !s.completion.Withdrawn?
          && forall i | 0 <= i < |s.cancels| :: !Marked(s.cancels[i]) && !s.cancels[i].CancelDone?)
    && (Last(s.stores).Marks? ==> Last(s.stores).i < |s.cancels| && Marked(s.cancels[Last(s.stores).i]))
    && (Last(s.stores).Finishes? ==> Last(s.stores).i < |s.cancels| && s.cancels[Last(s.stores).i].CancelDone?)
  }

  function Last<T>(s: seq<T>): T
    requires s != []
  {
    s[|s| - 1]
  }

  lemma WatcherKeeps(s: State)
    requires Inv(s)
    ensures Inv(WatcherMoves(s))
  {
    if s.watcher.Decided? { StoresSnoc(s.stores, ByWatcher(s.watcher.read, s.watcher.copy.state)); }
    WatcherKeepsHandle(s);
  }

  lemma WatcherKeepsHandle(s: State)
    requires CoreInv(s) && HandleInv(s)
    ensures HandleInv(WatcherMoves(s))
  {
    var s' := WatcherMoves(s);
    assert s'.cancels == s.cancels;
  }

  lemma CancelKeeps(s: State, i: nat)
    requires Inv(s) && i < |s.cancels|
    ensures Inv(CancelMoves(s, i))
  {
    CancelKeepsCore(s, i);
    CancelKeepsHandle(s, i);
    CancelKeepsStores(s, i);
  }

  lemma CancelKeepsCore(s: State, i: nat)
    requires CoreInv(s) && i < |s.cancels|
    ensures CoreInv(CancelMoves(s, i))
  {
  }

  lemma CancelKeepsHandle(s: State, i: nat)
    requires HandleInv(s) && i < |s.cancels|
    ensures HandleInv(CancelMoves(s, i))
  {
    var s' := CancelMoves(s, i);
    if !s.handleRegistered && !s.watcher.WatcherDone? {
      var j :| 0 <= j < |s.cancels| && Popped(s.cancels[j]);
      assert Popped(s'.cancels[j]);
    } else if !s'.handleRegistered && !s.watcher.WatcherDone? {
      assert Popped(s'.cancels[i]);
    }
  }

  lemma CancelKeepsStores(s: State, i: nat)
    requires StoresInv(s) && i < |s.cancels| && CancelInv(s.cancels[i])
    ensures StoresInv(CancelMoves(s, i))
  {
    if s.cancels[i].Marking? { StoresSnoc(s.stores, Marks(i)); }
    if s.cancels[i].Finishing? { StoresSnoc(s.stores, Finishes(i)); }
  }

  lemma TimeOutKeeps(s: State, i: nat)
    requires Inv(s) && s.kind == Detached && i < |s.cancels| && s.cancels[i].Killing?
    ensures Inv(WaitRunsOut(s, i))
  {
    assert Marked(s.cancels[i]);
    OtherPcKeepsHandle(s, WaitRunsOut(s, i), i);
  }

  lemma RaiseKeeps(s: State, i: nat)
    requires Inv(s) && i < |s.cancels| && (s.cancels[i].Killing? || s.cancels[i].Closing?)
    ensures Inv(s.(cancels := s.cancels[i := Raised]))
  {
    assert Marked(s.cancels[i]);
    OtherPcKeepsHandle(s, s.(cancels := s.cancels[i := Raised]), i);
  }

  /** A call that stays short of removing the handle. */
  lemma OtherPcKeepsHandle(s: State, s': State, i: nat)
    requires HandleInv(s) && i < |s.cancels| == |s'.cancels| && s'.cancels == s.cancels[i := s'.cancels[i]]
    requires !Popped(s.cancels[i]) && !Popped(s'.cancels[i]) && s'.handleRegistered == s.handleRegistered
    requires s'.watcher.WatcherDone? == s.watcher.WatcherDone?
    requires s'.completion.Unset? ==> s.completion.Unset? && !s'.cancels[i].Closing?
    ensures HandleInv(s')
  {
    if !s.handleRegistered && !s.watcher.WatcherDone? {
      var j :| 0 <= j < |s.cancels| && Popped(s.cancels[j]);
      assert Popped(s'.cancels[j]);
    }
  }

  lemma CallKeeps(s: State)
    requires Inv(s)
    ensures Inv(s.(cancels := s.cancels + [Fetching]))
  {
    var s' := s.(cancels := s.cancels + [Fetching]);
    if !s.handleRegistered && !s.watcher.WatcherDone? {
      var j :| 0 <= j < |s.cancels| && Popped(s.cancels[j]);
      assert Popped(s'.cancels[j]);
    }
  }

  lemma StepKeeps(s: State, a: Action)
    requires Inv(s)
    ensures Inv(Step(s, a))
  {
    match a
    case Complete(_) =>
    case WatcherStep => WatcherKeeps(s);
    case WatcherRaises =>
    case CallCancel => CallKeeps(s);
    case CancelStep(i) => if i < |s.cancels| { CancelKeeps(s, i); }
    case TimeOut(i) =>
      if s.kind == Detached && i < |s.cancels| && s.cancels[i].Killing? { TimeOutKeeps(s, i); }
    case CancelRaises(i) =>
      if i < |s.cancels| && (s.cancels[i].Killing? || s.cancels[i].Closing?) { RaiseKeeps(s, i); }
  }

  lemma {:induction false} RunKeeps(s: State, actions: seq<Action>)
    requires Inv(s)
    ensures Inv(Run(s, actions))
    decreases |actions|
  {
    if actions != [] {
      StepKeeps(s, actions[0]);
      RunKeeps(Step(s, actions[0]), actions[1..]);
    }
  }

  // ---- At rest

  predicate Rests(c: CancelPc) {
    c.CancelDone? || c.Refused? || c.Raised?
  }

  /** The watcher and every cancel call have run to completion or ended by an exception. */
  predicate AtRest(s: State) {
    (s.watcher.WatcherDone? || s.watcher.Aborted?) && forall i | 0 <= i < |s.cancels| :: Rests(s.cancels[i])
  }

  /** Once the watcher and every cancel call have come to an end, in whatever interleaving, the handle is gone
      if and only if the watcher or a call completed, and the stored state is terminal if and only if the last
      write of all is neither the mark of a call that then raised nor the RUNNING of the start. */
  lemma RestsInTerminalState(kind: Kind, actions: seq<Action>)
    ensures var s := Run(Started(kind), actions);
            AtRest(s) ==>
              && (!s.handleRegistered <==>
                    s.watcher.WatcherDone? || exists i :: 0 <= i < |s.cancels| && s.cancels[i].CancelDone?)
              && s.stores != [] && Wrote(Last(s.stores)) == s.stored.state
              && (match Last(s.stores)
                  case ByStart => s.stored.state == RUNNING && s.watcher.Aborted? && s.completion.Set?
                  case Marks(i) => s.stored.state == CANCELLING && i < |s.cancels| && s.cancels[i] == Raised
                  case _ => TerminalState(s.stored.state))
  {
    RunKeeps(Started(kind), actions);
    var s := Run(Started(kind), actions);
    if AtRest(s) && !s.handleRegistered && !s.watcher.WatcherDone? {
      var i :| 0 <= i < |s.cancels| && Popped(s.cancels[i]);
      assert Rests(s.cancels[i]);
    }
  }

  ghost predicate NothingRaises(actions: seq<Action>) {
    forall a :: a in actions ==> !a.CancelRaises? && !a.WatcherRaises?
  }

  /** A call whose wait runs out still ends the task: only an exception can leave it at CANCELLING or RUNNING. */
  lemma NobodyRaisedMeansTerminal(kind: Kind, actions: seq<Action>)
    requires NothingRaises(actions)
    ensures var s := Run(Started(kind), actions); AtRest(s) ==> TerminalState(s.stored.state) && !s.handleRegistered
  {
    NobodyRaised(Started(kind), actions);
    RunKeeps(Started(kind), actions);
    RestsInTerminalState(kind, actions);
    var s := Run(Started(kind), actions);
    if AtRest(s) && Last(s.stores).Finishes? { assert s.cancels[Last(s.stores).i].CancelDone?; }
  }

  ghost predicate NoneRaised(s: State) {
    (s.watcher.Aborted? ==> s.completion.Withdrawn?) && forall i | 0 <= i < |s.cancels| :: s.cancels[i] != Raised
  }

  lemma {:induction false} NobodyRaised(s: State, actions: seq<Action>)
    requires NothingRaises(actions) && NoneRaised(s)
    ensures NoneRaised(Run(s, actions))
    decreases |actions|
  {
    if actions != [] {
      var a := actions[0];
      assert a in actions;
      var s' := Step(s, a);
      forall i | 0 <= i < |s'.cancels| ensures s'.cancels[i] != Raised {
        if a.CancelStep? && a.i == i { assert s.cancels[i] != Raised; }
      }
      NobodyRaised(s', actions[1..]);
    }
  }

  /** Neither the watcher nor a cancel call ever stores PREPARING or RUNNING (or CREATED). */
  lemma NeverStoresBackwards(kind: Kind, actions: seq<Action>, a: Action)
    ensures var s := Run(Started(kind), actions);
            Step(s, a).stored != s.stored ==>
              TerminalState(Step(s, a).stored.state) || Step(s, a).stored.state == CANCELLING
  {
    RunKeeps(Started(kind), actions);
  }

  /** The stored outcome is the exit code of the process: SUCCEEDED only for 0, FAILED only for another
      code (or, for a local process, an unknown one), LOST only for an unknown code of a detached task. */
  lemma OutcomeIsTheExitCode(kind: Kind, actions: seq<Action>)
    ensures var s := Run(Started(kind), actions); OutcomeMatches(s, s.stored)
  {
    RunKeeps(Started(kind), actions);
  }

  // ---- CANCELLED is not absorbing

  /** All cancel calls are over, CANCELLED is stored, and the watcher has not read the task yet, or has read
      it since. */
  ghost predicate CancelledBeforeWatcher(s: State) {
    && Inv(s)
    && !s.handleRegistered && s.completion.Set?
    && (forall i | 0 <= i < |s.cancels| :: Rests(s.cancels[i]) || s.cancels[i].Fetching?)
    && (!WatcherStored(s) ==> s.stored.state == CANCELLED)
    && (s.watcher.Decided? ==>
          s.watcher.copy.state == Verdict(s.kind, CANCELLED, s.watcher.copy.exitCode))
    && (WatcherStored(s) ==> s.stored.state == Verdict(s.kind, CANCELLED, s.stored.exitCode))
  }

  lemma CancelledBeforeWatcherSteps(s: State, a: Action)
    requires CancelledBeforeWatcher(s)
    ensures CancelledBeforeWatcher(Step(s, a))
  {
    StepKeeps(s, a);
  }

  lemma {:induction false} CancelledBeforeWatcherKeeps(s: State, actions: seq<Action>)
    requires CancelledBeforeWatcher(s)
    ensures CancelledBeforeWatcher(Run(s, actions))
    decreases |actions|
  {
    if actions != [] {
      CancelledBeforeWatcherSteps(s, actions[0]);
      CancelledBeforeWatcherKeeps(Step(s, actions[0]), actions[1..]);
    }
  }

  /** Over all runs at rest: CANCELLED is stored if and only if a completed call wrote last, or the watcher did
      after reading CANCELLING.  In terms of the watcher: if it stored, no mark came last and it had read
      CANCELLING or wrote before a completed call did; if it was ended before, a completed call wrote last. */
  lemma CancelledAtRestIff(kind: Kind, actions: seq<Action>) returns (w: nat)
    requires AtRest(Run(Started(kind), actions))
    ensures var s := Run(Started(kind), actions);
            && s.stores != []
            && (s.stored.state == CANCELLED <==>
                  Last(s.stores).Finishes? || (Last(s.stores).ByWatcher? && Last(s.stores).read == CANCELLING))
            && (s.watcher.WatcherDone? ==>
                  && w < |s.stores| && s.stores[w].ByWatcher?
                  && (s.stored.state == CANCELLED <==>
                        && !Last(s.stores).Marks?
                        && (s.stores[w].read == CANCELLING || exists f :: w < f < |s.stores| && s.stores[f].Finishes?)))
            && (s.watcher.Aborted? ==>
                  && (forall v :: 0 <= v < |s.stores| ==> !s.stores[v].ByWatcher?)
                  && (s.stored.state == CANCELLED <==> Last(s.stores).Finishes?))
  {
    var s := Run(Started(kind), actions);
    RunKeeps(Started(kind), actions);
    w := 0;
    if s.watcher.WatcherDone? {
      w := WatchersWrite(s.stores);
    } else {
      NoWrite(s.stores);
    }
  }

  /** Where nothing raises: CANCELLED survives if and only if a call's wait ran out before the exit, or the watcher
      had read CANCELLING, or it stored before the last write of a completed call. */
  lemma CancelledSurvivesIff(kind: Kind, actions: seq<Action>) returns (w: nat)
    requires NothingRaises(actions)
    requires AtRest(Run(Started(kind), actions))
    ensures var s := Run(Started(kind), actions);
            && (s.completion.Withdrawn? <==> s.watcher.Aborted?)
            && (!s.completion.Withdrawn? ==> w < |s.stores| && s.stores[w].ByWatcher?)
            && (s.stored.state == CANCELLED <==>
                  || s.completion.Withdrawn?
                  || s.stores[w].read == CANCELLING
                  || exists f :: w < f < |s.stores| && s.stores[f].Finishes?)
  {
    RunKeeps(Started(kind), actions);
    NobodyRaised(Started(kind), actions);
    RestsInTerminalState(kind, actions);
    w := CancelledAtRestIff(kind, actions);
  }

  /** The one write of the watcher. */
  lemma {:induction false} WatchersWrite(stores: seq<Store>) returns (w: nat)
    requires WatcherWrites(stores) == 1 && Honest(stores)
    ensures w < |stores| && stores[w].ByWatcher? && HonestStore(stores[w])
    ensures forall v :: 0 <= v < |stores| && stores[v].ByWatcher? ==> v == w
  {
    if Last(stores).ByWatcher? {
      w := |stores| - 1;
      NoWrite(stores[..w]);
    } else {
      w := WatchersWrite(stores[..|stores| - 1]);
    }
  }

  lemma {:induction false} NoWrite(stores: seq<Store>)
    requires WatcherWrites(stores) == 0
    ensures forall v :: 0 <= v < |stores| ==> !stores[v].ByWatcher?
  {
    if stores != [] { NoWrite(stores[..|stores| - 1]); }
  }

  /** When all cancels have completed before the watcher reads the task, the completion is set, and CANCELLED is
      always undone by a watcher that stores: it only looks for CANCELLING, so it stores SUCCEEDED, FAILED or
      LOST over it. */
  lemma WatcherUndoesCancelled(s: State, actions: seq<Action>)
    requires Inv(s) && s.stored.state == CANCELLED && !s.handleRegistered
    requires s.watcher.AwaitingExit? || s.watcher.Woken?
    requires forall i | 0 <= i < |s.cancels| :: Rests(s.cancels[i])
    ensures s.completion.Set?
    ensures AtRest(Run(s, actions)) ==>
              var end := Run(s, actions).stored;
              if Run(s, actions).watcher.WatcherDone? then
                end.state == Verdict(s.kind, CANCELLED, end.exitCode) && end.state != CANCELLED
              else end.state == CANCELLED
  {
    CancelledBeforeWatcherKeeps(s, actions);
    KindIsConstant(s, actions);
  }

  /** Once the watcher has been ended and the handle removed, what is stored at rest stays. */
  lemma {:induction false} NothingFollowsAbort(s: State, actions: seq<Action>)
    requires s.watcher.Aborted? && !s.handleRegistered
    requires forall i | 0 <= i < |s.cancels| :: Rests(s.cancels[i]) || s.cancels[i].Fetching?
    ensures Run(s, actions).stored == s.stored && Run(s, actions).watcher.Aborted?
    decreases |actions|
  {
    if actions != [] { NothingFollowsAbort(Step(s, actions[0]), actions[1..]); }
  }

  lemma {:induction false} KindIsConstant(s: State, actions: seq<Action>)
    ensures Run(s, actions).kind == s.kind
    decreases |actions|
  {
    if actions != [] { KindIsConstant(Step(s, actions[0]), actions[1..]); }
  }

  lemma RunThree(s: State, a: Action, b: Action, c: Action)
    ensures Run(s, [a, b, c]) == Step(Step(Step(s, a), b), c)
  {
    assert [a, b, c][1..] == [b, c] && [b, c][1..] == [c] && [c][1..] == [];
    assert Run(Step(Step(s, a), b), [c]) == Step(Step(Step(s, a), b), c);
  }

  /** Such a run exists: the stored state goes RUNNING, CANCELLING, CANCELLED, SUCCEEDED. */
  lemma CancelledIsRewritten() returns (marked: State, cancelled: State, finished: State)
    ensures marked == Run(Started(Detached), [CallCancel, CancelStep(0), CancelStep(0)])
    ensures cancelled == Run(marked, [Complete(Some(0)), CancelStep(0), CancelStep(0)])
    ensures finished == Step(Run(cancelled, [WatcherStep, WatcherStep, WatcherStep]), WatcherStep)
    ensures marked.stored.state == CANCELLING && cancelled.stored.state == CANCELLED
    ensures AtRest(finished) && finished.stored == Record(SUCCEEDED, Some(0))
  {
    RunThree(Started(Detached), CallCancel, CancelStep(0), CancelStep(0));
    marked := Run(Started(Detached), [CallCancel, CancelStep(0), CancelStep(0)]);
    RunThree(marked, Complete(Some(0)), CancelStep(0), CancelStep(0));
    cancelled := Run(marked, [Complete(Some(0)), CancelStep(0), CancelStep(0)]);
    RunThree(cancelled, WatcherStep, WatcherStep, WatcherStep);
    finished := Step(Run(cancelled, [WatcherStep, WatcherStep, WatcherStep]), WatcherStep);
  }

  lemma RunFour(s: State, a: Action, b: Action, c: Action, d: Action)
    ensures Run(s, [a, b, c, d]) == Step(Step(Step(Step(s, a), b), c), d)
  {
    assert [a, b, c, d][1..] == [b, c, d];
    RunThree(Step(s, a), b, c, d);
  }

  /** So does one in which the watcher decides before the cancel and stores after it. */
  lemma DecidedBeforeCancel() returns (decided: State, cancelled: State, finished: State)
    ensures decided == Run(Started(Detached), [Complete(Some(0)), WatcherStep, WatcherStep])
    ensures cancelled == Run(Step(decided, CallCancel), [CancelStep(0), CancelStep(0), CancelStep(0), CancelStep(0)])
    ensures finished == Step(Step(cancelled, WatcherStep), WatcherStep)
    ensures decided.stored.state == RUNNING && cancelled.stored.state == CANCELLED
    ensures AtRest(finished) && finished.stored == Record(SUCCEEDED, Some(0))
  {
    RunThree(Started(Detached), Complete(Some(0)), WatcherStep, WatcherStep);
    decided := Run(Started(Detached), [Complete(Some(0)), WatcherStep, WatcherStep]);
    var called := Step(decided, CallCancel);
    RunFour(called, CancelStep(0), CancelStep(0), CancelStep(0), CancelStep(0));
    cancelled := Run(called, [CancelStep(0), CancelStep(0), CancelStep(0), CancelStep(0)]);
    finished := Step(Step(cancelled, WatcherStep), WatcherStep);
  }

  /** And one that rests at CANCELLING: a cancel marks the task after the watcher has stored, and raises. */
  lemma RestsAtCancelling() returns (stored: State, marked: State, rests: State)
    ensures stored == Run(Started(Detached), [Complete(Some(0)), WatcherStep, WatcherStep, WatcherStep])
    ensures marked == Run(stored, [CallCancel, CancelStep(0), CancelStep(0)])
    ensures rests == Step(Step(marked, CancelRaises(0)), WatcherStep)
    ensures stored.stored.state == SUCCEEDED && AtRest(rests) && rests.stored.state == CANCELLING
  {
    RunFour(Started(Detached), Complete(Some(0)), WatcherStep, WatcherStep, WatcherStep);
    stored := Run(Started(Detached), [Complete(Some(0)), WatcherStep, WatcherStep, WatcherStep]);
    RunThree(stored, CallCancel, CancelStep(0), CancelStep(0));
    marked := Run(stored, [CallCancel, CancelStep(0), CancelStep(0)]);
    rests := Step(Step(marked, CancelRaises(0)), WatcherStep);
  }

  /** A call whose wait for the exit runs out: the watcher is ended, and CANCELLED stays. */
  lemma TimedOutCancelSurvives() returns (marked: State, rests: State)
    ensures marked == Run(Started(Detached), [CallCancel, CancelStep(0), CancelStep(0)])
    ensures rests == Run(marked, [TimeOut(0), CancelStep(0), CancelStep(0)])
    ensures marked.stored.state == CANCELLING && marked.watcher.AwaitingExit?
    ensures AtRest(rests) && rests.stored.state == CANCELLED && !rests.handleRegistered
    ensures rests.watcher.Aborted? && rests.completion.Withdrawn?
    ensures forall actions :: Run(rests, actions).stored == rests.stored
  {
    RunThree(Started(Detached), CallCancel, CancelStep(0), CancelStep(0));
    marked := Run(Started(Detached), [CallCancel, CancelStep(0), CancelStep(0)]);
    RunThree(marked, TimeOut(0), CancelStep(0), CancelStep(0));
    rests := Run(marked, [TimeOut(0), CancelStep(0), CancelStep(0)]);
    forall actions ensures Run(rests, actions).stored == rests.stored { NothingFollowsAbort(rests, actions); }
  }

  /** The same where the tailer had died, so that closing the handle raises: everybody is over, CANCELLING is
      stored and the handle is still registered. */
  lemma CloseRaisesKeepsHandle() returns (marked: State, rests: State)
    ensures marked == Run(Started(Detached), [CallCancel, CancelStep(0), CancelStep(0)])
    ensures rests == Step(Step(marked, TimeOut(0)), CancelRaises(0))
    ensures AtRest(rests) && rests.stored.state == CANCELLING && rests.handleRegistered
  {
    RunThree(Started(Detached), CallCancel, CancelStep(0), CancelStep(0));
    marked := Run(Started(Detached), [CallCancel, CancelStep(0), CancelStep(0)]);
    rests := Step(Step(marked, TimeOut(0)), CancelRaises(0));
  }
}
