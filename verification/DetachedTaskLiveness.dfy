/** A detached task that has finished gets its complete outcome: the steps of its own tailer and watcher, with
    truthful answers, lead to the recorded code being stored with the whole log persisted. */
module DetachedTaskLiveness {
  import opened Model
  import opened LogStore
  import opened DetachedTask
  import opened DetachedTaskSafety

  /** A step of the tailer or of the watcher, with answers as the files are. */
  predicate Own(a: Action) {
    a in {TailRead(true), TailCommit, TailCheckStatus(true, true), TailDrain(true), WatcherWakes, WatcherStores}
  }

  ghost predicate AllOwn(actions: seq<Action>) {
    forall a :: a in actions ==> Own(a)
  }

  /** `s'` is reached from `s` by `actions`, none of them anybody else's. */
  ghost predicate Leads(s: State, actions: seq<Action>, s': State) {
    AllOwn(actions) && s' == Run(s, actions) && Reachable(s')
  }

  lemma Extend(s: State, actions: seq<Action>, s': State, a: Action) returns (more: seq<Action>, s'': State)
    requires Leads(s, actions, s') && Own(a)
    ensures Leads(s, more, s'') && s'' == Step(s', a)
  {
    more := actions + [a];
    s'' := Continue(s', a);
    RunSnoc(s, actions, a);
  }

  /** Everything but the tailer, the watcher, the records and the stored task is as it was. */
  predicate SameWorld(s: State, s': State) {
    s'.kind == s.kind && s'.launcher == s.launcher && s'.log == s.log && s'.status == s.status && s'.id == s.id
  }

  /** At the head of the loop. */
  predicate Polling(s: State) {
    s.tail.Tail? && s.tail.pc == AtHead
  }

  /** A watcher waits, and the task is running as far as is stored. */
  predicate Watched(s: State) {
    s.watcher.Waiting? && s.task.state == RUNNING
  }

  predicate Read(s: State) {
    s.tail.Tail? && s.tail.pc == CheckingStatus && |LogText(s)| <= s.tail.offset
  }

  /** The tailer reads on until it has read the whole log and looks for the status file. */
  lemma {:induction false} ReadsAll(s: State, actions: seq<Action>, s': State) returns (more: seq<Action>, s'': State)
    requires Leads(s, actions, s') && Polling(s')
    ensures Leads(s, more, s'') && SameWorld(s', s'') && Read(s'')
    ensures s''.watcher == s'.watcher && s''.task == s'.task
    decreases |LogText(s')| - s'.tail.offset
  {
    ReachableInv(s');
    more, s'' := Extend(s, actions, s', TailRead(true));
    AfterRead(s', s'');
    if s''.tail.pc.Emitting? {
      var next := s''.tail.pc.next;
      more, s'' := Extend(s, more, s'', TailCommit);
      if next == AtHead {
        more, s'' := ReadsAll(s, more, s'');
      }
    }
  }

  lemma AfterRead(s: State, s': State)
    requires Good(s, Text(Mine(s))) && Polling(s) && s' == Step(s, TailRead(true))
    ensures SameWorld(s, s') && s'.watcher == s.watcher && s'.task == s.task && s'.tail.Tail?
    ensures s'.tail.pc == CheckingStatus ==> Read(s')
    ensures s'.tail.pc != CheckingStatus ==>
              && s'.tail.pc.Emitting? && s.tail.offset < s'.tail.offset <= |LogText(s)|
              && (s'.tail.pc.next == AtHead || (s'.tail.pc.next == CheckingStatus && s'.tail.offset == |LogText(s)|))
  {
  }

  /** A tailer left alone, local or over SSH, reaches the end of its log: some number of its own steps persists
      every byte. */
  lemma TailerCatchesUp(s: State) returns (actions: seq<Action>)
    requires Reachable(s) && Polling(s)
    ensures AllOwn(actions) && Persisted(Run(s, actions)) == LogText(s)
  {
    var s';
    actions, s' := ReadsAll(s, [], s);
    AllPersisted(s');
  }

  lemma AllPersisted(s: State)
    requires Reachable(s) && Read(s)
    ensures Persisted(s) == LogText(s)
  {
    ReachableInv(s);
    PersistedIsMine(s);
    assert Text(Mine(s)) == LogText(s);
  }

  /** Then it finds the code and drains nothing more; the watcher wakes and stores it. */
  lemma StoresCode(s: State, actions: seq<Action>, s': State) returns (more: seq<Action>, s'': State)
    requires Leads(s, actions, s') && Read(s') && Watched(s') && s'.status.Some?
    ensures Leads(s, more, s'') && SameWorld(s', s'') && s''.rows == s'.rows
    ensures s''.task.exitCode == s'.status && s''.task.state == if s'.status == Some(0) then SUCCEEDED else FAILED
    ensures s''.task.writer.LiveWatcher? && s''.watcher == NoWatcher
  {
    more, s'' := ResolvesCode(s, actions, s');
    more, s'' := Extend(s, more, s'', WatcherWakes);
    more, s'' := Extend(s, more, s'', WatcherStores);
  }

  lemma ResolvesCode(s: State, actions: seq<Action>, s': State) returns (more: seq<Action>, s'': State)
    requires Leads(s, actions, s') && Read(s') && s'.status.Some?
    ensures Leads(s, more, s'') && SameWorld(s', s'') && s''.rows == s'.rows
    ensures s''.watcher == s'.watcher && s''.task == s'.task
    ensures s''.tail.Tail? && s''.tail.pc.Resolved? && s''.tail.pc.found == Recorded(s'.status.value)
  {
    more, s'' := Extend(s, actions, s', TailCheckStatus(true, true));
    more, s'' := Extend(s, more, s'', TailDrain(true));
  }

  /** From any reachable state with a polling tailer and a finished launcher, local or over SSH: some number of
      their own steps later the recorded code is stored and all output is persisted. */
  lemma FinishedTaskIsStoredComplete(s: State) returns (actions: seq<Action>)
    requires Reachable(s) && Polling(s) && Watched(s) && s.status.Some?
    ensures AllOwn(actions)
    ensures var end := Run(s, actions);
            && end.task.state == (if s.status == Some(0) then SUCCEEDED else FAILED) && end.task.exitCode == s.status
            && Persisted(end) == LogText(end) == LogText(s)
  {
    var s';
    actions, s' := ReadsAll(s, [], s);
    AllPersisted(s');
    actions, s' := StoresCode(s, actions, s');
  }
}
