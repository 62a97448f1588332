/** The agent loop (`AgentLoop`), its state machine included. */
module AgentLoop {
  import Model
  import opened AgentLimits
  import opened AgentStates

  datatype RunResult = RunResult(finalState: AgentState, iterations: nat, toolCalls: nat, toolErrors: nat,
                       code: Model.Option<ErrorCode>)

  function FingerprintsOf(calls: seq<Call>): seq<string> {
    seq(|calls|, i requires 0 <= i < |calls| => FingerprintOf(calls[i]))
  }

  /** `s[-limit:]`, for a positive limit. */
  function LastOf<T>(s: seq<T>, limit: nat): seq<T> {
    if |s| <= limit then s else s[|s| - limit..]
  }

  class AgentLoop {
    const config: Config
    var machine: StateMachine
    var iterations: nat
    var toolCallCount: nat
    var toolErrorCount: nat
    var consecutiveToolErrors: nat
    var recentFingerprints: seq<string>
    /** The account of the run so far. */
    ghost var tally: Tally

    constructor (config: Config)
      requires ValidConfig(config)
      ensures this.config == config && fresh(machine)
    {
      this.config := config;
      machine := new StateMachine();
      iterations, toolCallCount, toolErrorCount, consecutiveToolErrors, recentFingerprints := 0, 0, 0, 0, [];
      tally := START;
    }

    ghost predicate Agrees()
      reads this
    {
      && ValidConfig(config)
      && iterations == tally.iterations && toolCallCount == tally.toolCalls
      && toolErrorCount == tally.warnings + tally.rejected + tally.failedCalls
      && consecutiveToolErrors == tally.consecutive
      && recentFingerprints == LastOf(FingerprintsOf(tally.calls), config.repeatedActionLimit)
    }

    /** Every transition the loop attempts is legal: the table permits it at each call of this method. */
    method Move(newState: AgentState)
      requires newState in LegalTransitions(machine.state)
      modifies machine
      ensures machine.state == newState
    {
      var legal := machine.Transition(newState);
      assert legal;
    }

    method ResetRunState()
      requires ValidConfig(config)
      modifies this
      ensures Agrees() && tally == START && fresh(machine) && machine.state == CREATED
    {
      machine := new StateMachine();
      iterations, toolCallCount, toolErrorCount, consecutiveToolErrors, recentFingerprints := 0, 0, 0, 0, [];
      tally := START;
      assert FingerprintsOf([]) == [];
    }

    /** `run_with_context`.  The run ends COMPLETED or FAILED, with the counts of `Outcome`. */
    method Run(script: nat -> Reply) returns (result: RunResult)
      requires ValidConfig(config)
      modifies this
      ensures var (t, verdict) := Outcome(config, script);
              && tally == t
              && result.finalState == machine.state == (if verdict == Completed then COMPLETED else FAILED)
              && result.iterations == t.iterations && result.toolCalls == t.toolCalls
              && result.toolErrors == t.warnings + t.rejected + t.failedCalls
              && result.code == (if verdict == Completed then Model.None else Model.Some(verdict.code))
    {
      ResetRunState();
      Move(INITIALIZING);
      Move(READY);
      var verdict, n := Iterate(script);
      if verdict == GoOn {
        verdict := Failed(MaxIterationsExceeded);
      } else {
        StaysStopped(config, script, n, config.maxIterations);
      }
      RunIsBounded(config, script);
      if verdict == Completed {
        return RunResult(COMPLETED, iterations, toolCallCount, toolErrorCount, Model.None);
      }
      TerminalIff(machine.state);
      Move(FAILED);
      result := RunResult(FAILED, iterations, toolCallCount, toolErrorCount, Model.Some(verdict.code));
    }

    /** The loop.  An exception leaves it in whatever state the machine is in. */
    method Iterate(script: nat -> Reply) returns (verdict: Verdict, ghost n: nat)
      requires Agrees() && tally == START && machine.state == READY
      modifies this`iterations, this`toolCallCount, this`toolErrorCount, this`consecutiveToolErrors,
               this`recentFingerprints, this`tally, machine
      ensures Agrees() && (tally, verdict) == After(config, script, n)
      ensures n <= config.maxIterations && (verdict == GoOn ==> n == config.maxIterations)
      ensures if verdict == Completed then machine.state == COMPLETED else !Terminal(machine.state)
    {
      verdict, n := GoOn, 0;
      while verdict == GoOn && iterations < config.maxIterations
        invariant Agrees() && n <= config.maxIterations && (verdict == GoOn ==> iterations == n)
        invariant (tally, verdict) == After(config, script, n)
        invariant verdict == GoOn ==> machine.state in {READY, PROCESSING_RESULT}
        invariant if verdict == Completed then machine.state == COMPLETED else !Terminal(machine.state)
        decreases config.maxIterations - n
      {
        verdict := Advance(script);
        n := n + 1;
      }
    }

    /** One turn of the loop, as one more step of `After`. */
    method Advance(script: nat -> Reply) returns (verdict: Verdict)
      requires Agrees() && machine.state in {READY, PROCESSING_RESULT} &&
                 (tally, GoOn) == After(config, script, iterations)
      modifies this`iterations, this`toolCallCount, this`toolErrorCount, this`consecutiveToolErrors,
               this`recentFingerprints, this`tally, machine
      ensures Agrees() && (tally, verdict) == After(config, script, old(iterations) + 1)
      ensures verdict == GoOn ==> iterations == old(iterations) + 1 && machine.state == PROCESSING_RESULT
      ensures if verdict == Completed then machine.state == COMPLETED else !Terminal(machine.state)
    {
      verdict := OneIteration(script(iterations));
      IterationsSplit(config, script, old(iterations) + 1);
    }

    /** The body of the loop. */
    method OneIteration(reply: Reply) returns (verdict: Verdict)
      requires Agrees() && machine.state in {READY, PROCESSING_RESULT}
      modifies this`iterations, this`toolCallCount, this`toolErrorCount, this`consecutiveToolErrors,
               this`recentFingerprints, this`tally, machine
      ensures Agrees() && (tally, verdict) == Turn(config, old(tally), reply)
      ensures verdict == GoOn ==> machine.state == PROCESSING_RESULT
      ensures if verdict == Completed then machine.state == COMPLETED else !Terminal(machine.state)
    {
      iterations := iterations + 1;
      tally := tally.(iterations := tally.iterations + 1);
      Move(PLANNING);
      if reply.BuildRaises? {
        verdict := RaisedEarly();
        return;
      }
      Move(WAITING_FOR_MODEL);
      if reply.DecideRaises? {
        verdict := RaisedEarly();
        return;
      }
      if reply.Final? {
        verdict := FinalDecision(reply);
        return;
      }
      verdict := ExecuteDecision(reply);
    }

    ghost method CountRaised()
      requires Agrees()
      modifies this`tally
      ensures Agrees() && tally == Raised(old(tally)).0
    {
      tally := tally.(raised := tally.raised + 1);
    }

    method RaisedEarly() returns (verdict: Verdict)
      requires Agrees()
      modifies this`tally
      ensures Agrees() && (tally, verdict) == Raised(old(tally))
    {
      CountRaised();
      verdict := Failed(OtherError);
    }

    method FinalDecision(reply: Reply) returns (verdict: Verdict)
      requires Agrees() && machine.state == WAITING_FOR_MODEL && reply.Final?
      modifies this`toolErrorCount, this`consecutiveToolErrors, this`tally, machine
      ensures Agrees() && (tally, verdict) == Guarded(config, old(tally), reply.guard, reply.noteRaises)
      ensures verdict == GoOn ==> machine.state == PROCESSING_RESULT
      ensures if verdict == Completed then machine.state == COMPLETED else !Terminal(machine.state)
    {
      Move(PROCESSING_RESULT);
      if reply.guard == GuardRaises || reply.noteRaises {
        verdict := RaisedEarly();
        return;
      }
      if reply.guard == Rejects {
        toolErrorCount := toolErrorCount + 1;
        consecutiveToolErrors := consecutiveToolErrors + 1;
        tally := tally.(rejected := tally.rejected + 1, consecutive := tally.consecutive + 1);
        return if consecutiveToolErrors >= config.maxConsecutiveToolErrors then Failed(ConsecutiveErrorLimit) else GoOn;
      }
      tally := tally.(accepted := tally.accepted + 1);
      Move(COMPLETED);
      verdict := Completed;
    }

    /** `_execute_decision`. */
    method ExecuteDecision(reply: Reply) returns (verdict: Verdict)
      requires Agrees() && machine.state == WAITING_FOR_MODEL && reply.Tool?
      modifies this`toolCallCount, this`toolErrorCount, this`consecutiveToolErrors, this`recentFingerprints,
               this`tally, machine
      ensures Agrees() && (tally, verdict) == Decided(config, old(tally), reply)
      ensures verdict == GoOn ==> machine.state == PROCESSING_RESULT
      ensures verdict != Completed && !Terminal(machine.state)
    {
      Move(TOOL_SELECTED);
      var repeated := RecordFingerprint(reply.name, reply.arguments);
      if repeated {
        if reply.noteRaises {
          verdict := RaisedEarly();
          return;
        }
        toolErrorCount := toolErrorCount + 1;
        consecutiveToolErrors := consecutiveToolErrors + 1;
        tally := tally.(warnings := tally.warnings + 1, consecutive := tally.consecutive + 1);
        Move(EXECUTING_TOOL);
        Move(PROCESSING_RESULT);
        return if consecutiveToolErrors >= config.maxConsecutiveToolErrors then Failed(ConsecutiveErrorLimit) else GoOn;
      }
      Move(EXECUTING_TOOL);
      if reply.outcome == ExecuteRaises {
        verdict := RaisedEarly();
        return;
      }
      verdict := ProcessResult(reply.name, reply.outcome.ok, reply.outcome.recoverable, reply.noteRaises);
    }

    method ProcessResult(name: string, ok: bool, recoverable: bool, noteRaises: bool) returns (verdict: Verdict)
      requires Agrees() && machine.state == EXECUTING_TOOL
      modifies this`toolCallCount, this`toolErrorCount, this`consecutiveToolErrors, this`tally, machine
      ensures Agrees() && machine.state == PROCESSING_RESULT
      ensures var t := old(tally);
              tally == if ok then t.(toolCalls := t.toolCalls + 1, consecutive := 0)
                       else t.(toolCalls := t.toolCalls + 1, failedCalls := t.failedCalls + 1,
                           consecutive := t.consecutive + 1)
      ensures verdict == if !ok && !recoverable then Failed(OtherError)
                         else if !ok && Limited(config, tally) != GoOn then Failed(ConsecutiveErrorLimit)
                         else if noteRaises then Failed(OtherError) else GoOn
    {
      toolCallCount := toolCallCount + 1;
      tally := tally.(toolCalls := tally.toolCalls + 1);
      if name == "run_command" && ok {
        Move(OBSERVING_TASK);
        Move(PROCESSING_RESULT);
      } else {
        Move(PROCESSING_RESULT);
      }
      if ok {
        consecutiveToolErrors := 0;
        tally := tally.(consecutive := 0);
      } else {
        toolErrorCount := toolErrorCount + 1;
        consecutiveToolErrors := consecutiveToolErrors + 1;
        tally := tally.(failedCalls := tally.failedCalls + 1, consecutive := tally.consecutive + 1);
        if !recoverable { return Failed(OtherError); }
        if consecutiveToolErrors >= config.maxConsecutiveToolErrors { return Failed(ConsecutiveErrorLimit); }
      }
      verdict := if noteRaises then Failed(OtherError) else GoOn;
    }

    /** `_record_fingerprint`: whether the last `repeated_action_limit` calls are one call. */
    method RecordFingerprint(name: string, arguments: string) returns (repeated: bool)
      requires Agrees()
      modifies this`recentFingerprints, this`tally
      ensures Agrees()
      ensures repeated == Repeats(old(tally).calls, Fingerprint(name, arguments), config.repeatedActionLimit)
      ensures tally == old(tally).(calls := old(tally).calls + [Call(name, arguments, !repeated)])
    {
      var fingerprint := Fingerprint(name, arguments);
      recentFingerprints := recentFingerprints + [fingerprint];
      recentFingerprints := LastOf(recentFingerprints, config.repeatedActionLimit);
      var distinct := set f | f in recentFingerprints;
      repeated := |recentFingerprints| == config.repeatedActionLimit && |distinct| == 1;
      WindowRepeats(tally.calls, Call(name, arguments, !repeated), config.repeatedActionLimit);
      tally := tally.(calls := tally.calls + [Call(name, arguments, !repeated)]);
    }
  }

  lemma {:induction false} StaysStopped(c: Config, script: nat -> Reply, n: nat, later: nat)
    requires n <= later && After(c, script, n).1 != GoOn
    ensures After(c, script, later) == After(c, script, n)
    decreases later
  {
    if n < later { StaysStopped(c, script, n, later - 1); }
  }

  /** Keeping only the last `limit` fingerprints is enough: appending and cutting again gives the last `limit`
      of all, and they are one value exactly when the calls repeat. */
  lemma WindowRepeats(calls: seq<Call>, call: Call, limit: nat)
    requires limit >= 1
    ensures var f := FingerprintOf(call);
            var window := LastOf(LastOf(FingerprintsOf(calls), limit) + [f], limit);
            && window == LastOf(FingerprintsOf(calls + [call]), limit)
            && (|window| == limit && |set g | g in window| == 1 <==> Repeats(calls, f, limit))
  {
    var f := FingerprintOf(call);
    var all := FingerprintsOf(calls) + [f];
    assert FingerprintsOf(calls + [call]) == all;
    LastOfAppended(FingerprintsOf(calls), f, limit);
    OneDistinctIff(LastOf(all, limit), f);
    WindowIsFull(calls, f, limit);
  }

  lemma LastOfAppended<T>(s: seq<T>, x: T, limit: nat)
    requires limit >= 1
    ensures LastOf(LastOf(s, limit) + [x], limit) == LastOf(s + [x], limit)
    ensures x in LastOf(s + [x], limit)
  {
    var window := LastOf(s + [x], limit);
    assert window[|window| - 1] == x;
  }

  lemma WindowIsFull(calls: seq<Call>, f: string, limit: nat)
    requires limit >= 1
    ensures var window := LastOf(FingerprintsOf(calls) + [f], limit);
            |window| == limit && (forall g :: g in window ==> g == f) <==> Repeats(calls, f, limit)
  {
    var all := FingerprintsOf(calls) + [f];
    var window, lo := LastOf(all, limit), |calls| + 1 - limit;
    if |window| == limit && forall g :: g in window ==> g == f {
      forall i | lo <= i < |calls| ensures FingerprintOf(calls[i]) == f {
        assert all[i] == window[i - lo];
        assert window[i - lo] in window;
      }
    }
  }

  lemma OneDistinctIff<T>(s: seq<T>, x: T)
    requires x in s
    ensures |set y | y in s| == 1 <==> forall y :: y in s ==> y == x
  {
    var distinct := set y | y in s;
    if |distinct| == 1 {
      OnlyMember(distinct, x);
      assert forall y :: y in s ==> y in distinct;
    }
    if forall y :: y in s ==> y == x {
      assert distinct == {x};
    }
  }

  lemma OnlyMember<T>(s: set<T>, x: T)
    requires |s| == 1 && x in s
    ensures s == {x}
  {
    assert |s - {x}| == 0;
  }
}
