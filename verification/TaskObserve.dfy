/** `TaskNamespace.observe` of the SDK: polling a task's log text behind a cursor. */
module TaskObserve {
  import opened Model
  import opened LogStore
  import DetachedTask
  import DetachedTaskSafety

  /** One round of requests: `task.get`, then `task.logs` joined by `logs_text`. */
  datatype Poll = Poll(state: TaskState, text: string)

  datatype Observation = Observation(text: string, cursor: nat, truncated: bool, state: TaskState, isTerminal: bool)

  datatype Reply = Observed(value: Observation) | ValueError(message: string)

  /** The text after the cursor (which may lie beyond the end), cut down to its last `maxChars`. */
  function Window(poll: Poll, cursor: nat, maxChars: nat): Observation {
    var unseen := poll.text[Min(cursor, |poll.text|)..];
    var cut := if |unseen| > maxChars then unseen[|unseen| - maxChars..] else unseen;
    Observation(cut, |poll.text|, |unseen| > maxChars, poll.state, TerminalState(poll.state))
  }

  predicate KeepsWaiting(poll: Poll, cursor: nat, wait: bool) {
    wait && |poll.text| <= cursor && !TerminalState(poll.state)
  }

  /** `polls(k)` is what the k-th round of requests would answer, and the deadline passes before round
      `deadline + 1`. */
  method Observe(cursor: int, maxChars: int, wait: bool, polls: nat -> Poll, deadline: nat)
    returns (reply: Reply, ghost last: nat)
    ensures reply.ValueError? <==> cursor < 0 || maxChars <= 0
    ensures reply.Observed? ==>
              && reply.value == Window(polls(last), cursor, maxChars)
              && last <= deadline
              && (forall k: nat | k < last :: KeepsWaiting(polls(k), cursor, wait))
              && (last == deadline || !KeepsWaiting(polls(last), cursor, wait))
  {
    last := 0;
    if cursor < 0 { return ValueError("cursor must be greater than or equal to 0"), last; }
    if maxChars <= 0 { return ValueError("max_chars must be positive"), last; }
    var now := 0;
    var poll := polls(0);
    while wait && |poll.text| <= cursor && !TerminalState(poll.state)
      invariant now <= deadline && poll == polls(now)
      invariant forall k: nat | k < now :: KeepsWaiting(polls(k), cursor, wait)
      decreases deadline - now
    {
      if now >= deadline { break; }
      now := now + 1;
      poll := polls(now);
    }
    last := now;
    var nextCursor := |poll.text|;
    var start := if cursor < |poll.text| then cursor else |poll.text|;
    var chunk := poll.text[start..];
    var truncated := |chunk| > maxChars;
    if truncated { chunk := chunk[|chunk| - maxChars..]; }
    reply := Observed(Observation(chunk, nextCursor, truncated, poll.state, TerminalState(poll.state)));
  }

  // ---- Chains of calls, each passing on the cursor it was given back

  /** The observations of a client that starts at `cursor` and sees `polls` one after another. */
  function Chain(polls: seq<Poll>, cursor: nat, maxChars: nat): seq<Observation> {
    if polls == [] then []
    else
      var first := Window(polls[0], cursor, maxChars);
      [first] + Chain(polls[1..], first.cursor, maxChars)
  }

  function Joined(observations: seq<Observation>): string {
    if observations == [] then "" else observations[0].text + Joined(observations[1..])
  }

  /** Each poll sees the text of the one before, perhaps with more appended. */
  predicate GrowsOnly(polls: seq<Poll>)
    decreases |polls|
  {
    |polls| > 1 ==> polls[0].text <= polls[1].text && GrowsOnly(polls[1..])
  }

  predicate NoneTruncated(observations: seq<Observation>)
    decreases |observations|
  {
    observations != [] ==> !observations[0].truncated && NoneTruncated(observations[1..])
  }

  /** With an append-only log and no truncation, the observed texts concatenate to the log from the first
      cursor (or from the end of the log, when the first cursor was beyond it) to the last. */
  lemma {:induction false} ChainIsTheLog(polls: seq<Poll>, cursor: nat, maxChars: nat)
    requires polls != [] && GrowsOnly(polls) && NoneTruncated(Chain(polls, cursor, maxChars))
    ensures Joined(Chain(polls, cursor, maxChars)) ==
            polls[|polls| - 1].text[Min(Min(cursor, |polls[0].text|), |polls[|polls| - 1].text|)..]
    decreases |polls|
  {
    var first, rest := Window(polls[0], cursor, maxChars), polls[1..];
    if |polls| == 1 {
      assert Chain(rest, first.cursor, maxChars) == [];
    } else {
      ChainStep(polls, cursor, maxChars);
      ChainIsTheLog(rest, |polls[0].text|, maxChars);
      LastExtendsFirst(polls);
      LastExtendsFirst(rest);
      var last, seen := polls[|polls| - 1].text, |polls[0].text|;
      assert rest[|rest| - 1] == polls[|polls| - 1] && rest[0] == polls[1];
      assert Min(Min(seen, |rest[0].text|), |last|) == seen && Min(Min(cursor, seen), |last|) == Min(cursor, seen);
      JoinAt(last, Min(cursor, seen), polls[0].text);
    }
  }

  lemma ChainStep(polls: seq<Poll>, cursor: nat, maxChars: nat)
    requires |polls| > 1 && NoneTruncated(Chain(polls, cursor, maxChars))
    ensures var first := Window(polls[0], cursor, maxChars);
            && NoneTruncated(Chain(polls[1..], first.cursor, maxChars))
            && Joined(Chain(polls, cursor, maxChars)) ==
                  polls[0].text[Min(cursor, |polls[0].text|)..] + Joined(Chain(polls[1..], |polls[0].text|, maxChars))
  {
    var first := Window(polls[0], cursor, maxChars);
    assert Chain(polls, cursor, maxChars)[1..] == Chain(polls[1..], first.cursor, maxChars);
  }

  lemma JoinAt(text: string, start: nat, front: string)
    requires start <= |front| && front <= text
    ensures front[start..] + text[|front|..] == text[start..]
  {
  }

  lemma {:induction false} LastExtendsFirst(polls: seq<Poll>)
    requires polls != [] && GrowsOnly(polls)
    ensures polls[0].text <= polls[|polls| - 1].text
    decreases |polls|
  {
    if |polls| > 1 { LastExtendsFirst(polls[1..]); }
  }

  /** An observation holds at most `maxChars` characters and leaves the cursor at the end of the text; if it is
      not truncated, it is everything after the cursor. */
  lemma WindowIsBounded(poll: Poll, cursor: nat, maxChars: nat)
    ensures var o := Window(poll, cursor, maxChars);
            && |o.text| <= maxChars && o.cursor == |poll.text|
            && o.state == poll.state && (o.isTerminal <==> poll.state in {SUCCEEDED, FAILED, CANCELLED, LOST})
            && (o.truncated <==> |poll.text| > cursor + maxChars)
            && (!o.truncated ==> |o.text| == Max(0, |poll.text| - cursor))
            && (o.text != "" ==> o.text == poll.text[|poll.text| - |o.text|..])
  {
  }

  /** Polling goes on exactly while asked to wait, nothing is new and the task may still change. */
  lemma KeepsWaitingIff(poll: Poll, cursor: nat, wait: bool)
    ensures KeepsWaiting(poll, cursor, wait) <==>
              && wait && Window(poll, cursor, 1).text == ""
              && poll.state in {CREATED, PREPARING, RUNNING, CANCELLING}
  {
  }

  /** A truncated observation is exactly the last `maxChars` characters of the new text. */
  lemma TruncatedIsSuffix(poll: Poll, cursor: nat, maxChars: nat)
    requires Window(poll, cursor, maxChars).truncated
    ensures var o := Window(poll, cursor, maxChars);
            && cursor < |poll.text| && |o.text| == maxChars
            && o.text == poll.text[|poll.text| - maxChars..]
            && cursor < |poll.text| - maxChars
  {
  }

  // ---- The log text of a detached task is append-only

  /** The polls of a client while the task takes the steps of `segments` between its calls. */
  function PollsDuring(s: DetachedTask.State, segments: seq<seq<DetachedTask.Action>>): seq<Poll>
    decreases |segments|
  {
    [Poll(s.task.state, DetachedTask.Persisted(s))] +
    if segments == [] then [] else PollsDuring(DetachedTask.Run(s, segments[0]), segments[1..])
  }

  lemma {:induction false} DetachedLogGrowsOnly(s: DetachedTask.State, segments: seq<seq<DetachedTask.Action>>)
    requires DetachedTaskSafety.Reachable(s)
    ensures GrowsOnly(PollsDuring(s, segments))
    decreases |segments|
  {
    if segments != [] {
      var s' := DetachedTask.Run(s, segments[0]);
      DetachedTaskSafety.PersistedOnlyGrows(s, segments[0]);
      DetachedTaskSafety.ReachableRun(s, segments[0]);
      DetachedLogGrowsOnly(s', segments[1..]);
      assert PollsDuring(s, segments)[1..] == PollsDuring(s', segments[1..]);
    }
  }

  /** Observing a detached task across any interleaving, crashes and restarts included, loses and repeats
      nothing. */
  lemma ObservingLosesNothing(s: DetachedTask.State, segments: seq<seq<DetachedTask.Action>>, maxChars: nat)
    requires DetachedTaskSafety.Reachable(s)
    requires NoneTruncated(Chain(PollsDuring(s, segments), 0, maxChars))
    ensures var polls := PollsDuring(s, segments);
            Joined(Chain(polls, 0, maxChars)) == polls[|polls| - 1].text
  {
    DetachedLogGrowsOnly(s, segments);
    ChainIsTheLog(PollsDuring(s, segments), 0, maxChars);
  }
}
