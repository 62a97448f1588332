/** What a run of the agent loop amounts to: the counters after any number of model replies. */
module AgentLimits {

  datatype Config = Config(maxIterations: nat, maxConsecutiveToolErrors: nat, repeatedActionLimit: nat)

  /** The bounds the configuration enforces. */
  predicate ValidConfig(c: Config) {
    c.maxIterations >= 1 && c.maxConsecutiveToolErrors >= 1 && c.repeatedActionLimit >= 2
  }

  datatype ToolOutcome = ExecuteRaises | Result(ok: bool, recoverable: bool)

  datatype Guard = GuardRaises | Accepts | Rejects

  /** Everything outside the loop in one iteration.  `noteRaises`: adding the outcome to the context raises.
      `arguments` is the canonical JSON of the arguments. */
  datatype Reply =
    | BuildRaises
    | DecideRaises
    | Final(guard: Guard, noteRaises: bool)
    | Tool(name: string, arguments: string, outcome: ToolOutcome, noteRaises: bool)

  function Fingerprint(name: string, arguments: string): string {
    name + ":" + arguments
  }

  datatype ErrorCode = MaxIterationsExceeded | ConsecutiveErrorLimit | OtherError

  datatype Verdict = GoOn | Completed | Failed(code: ErrorCode)

  datatype Call = Call(name: string, arguments: string, executed: bool)

  function FingerprintOf(call: Call): string {
    Fingerprint(call.name, call.arguments)
  }

  /** `calls` are all tool decisions so far; a tool that raised was executed. */
  datatype Tally = Tally(iterations: nat, toolCalls: nat, warnings: nat, rejected: nat, accepted: nat, raised: nat,
                         failedCalls: nat, consecutive: nat, calls: seq<Call>)

  const START := Tally(0, 0, 0, 0, 0, 0, 0, 0, [])

  /** The last `limit` calls, the given one included, have one fingerprint. */
  predicate Repeats(calls: seq<Call>, fingerprint: string, limit: nat) {
    && |calls| + 1 >= limit >= 1
    && forall i :: |calls| + 1 - limit <= i < |calls| ==> FingerprintOf(calls[i]) == fingerprint
  }

  function Limited(c: Config, t: Tally): Verdict {
    if t.consecutive >= c.maxConsecutiveToolErrors then Failed(ConsecutiveErrorLimit) else GoOn
  }

  function Raised(t: Tally): (Tally, Verdict) {
    (t.(raised := t.raised + 1), Failed(OtherError))
  }

  /** One tool decision, in an iteration already counted. */
  function Decided(c: Config, t: Tally, reply: Reply): (Tally, Verdict)
    requires reply.Tool?
  {
    var f := Fingerprint(reply.name, reply.arguments);
    if Repeats(t.calls, f, c.repeatedActionLimit) then
      var t' := t.(calls := t.calls + [Call(reply.name, reply.arguments, false)]);
      if reply.noteRaises then Raised(t')
      else
        var warned := t'.(warnings := t.warnings + 1, consecutive := t.consecutive + 1);
        (warned, Limited(c, warned))
    else
      var t' := t.(calls := t.calls + [Call(reply.name, reply.arguments, true)]);
      match reply.outcome
      case ExecuteRaises => Raised(t')
      case Result(true, _) =>
        (t'.(toolCalls := t.toolCalls + 1, consecutive := 0), if reply.noteRaises then Failed(OtherError) else GoOn)
      case Result(false, recoverable) =>
        var failed := t'.(toolCalls := t.toolCalls + 1, failedCalls := t.failedCalls + 1,
            consecutive := t.consecutive + 1);
        if !recoverable then (failed, Failed(OtherError))
        else if Limited(c, failed) != GoOn then (failed, Limited(c, failed))
        else (failed, if reply.noteRaises then Failed(OtherError) else GoOn)
  }

  /** One final decision, in an iteration already counted. */
  function Guarded(c: Config, t: Tally, guard: Guard, noteRaises: bool): (Tally, Verdict) {
    if guard == GuardRaises || noteRaises then Raised(t)
    else if guard == Accepts then (t.(accepted := t.accepted + 1), Completed)
    else
      var rejected := t.(rejected := t.rejected + 1, consecutive := t.consecutive + 1);
      (rejected, Limited(c, rejected))
  }

  /** One iteration. */
  function Turn(c: Config, before: Tally, reply: Reply): (Tally, Verdict) {
    var t := before.(iterations := before.iterations + 1);
    match reply
    case BuildRaises => Raised(t)
    case DecideRaises => Raised(t)
    case Final(guard, noteRaises) => Guarded(c, t, guard, noteRaises)
    case Tool(_, _, _, _) => Decided(c, t, reply)
  }

  /** The run after `n` replies of `script`, ignoring the iteration limit. */
  function After(c: Config, script: nat -> Reply, n: nat): (Tally, Verdict) {
    if n == 0 then (START, GoOn)
    else
      var (t, verdict) := After(c, script, n - 1);
      if verdict == GoOn then Turn(c, t, script(n - 1)) else (t, verdict)
  }

  /** The whole run. */
  function Outcome(c: Config, script: nat -> Reply): (Tally, Verdict) {
    var (t, verdict) := After(c, script, c.maxIterations);
    (t, if verdict == GoOn then Failed(MaxIterationsExceeded) else verdict)
  }

  /** What holds after every iteration. */
  predicate Accounts(c: Config, t: Tally, verdict: Verdict) {
    && t.iterations == t.toolCalls + t.warnings + t.rejected + t.accepted + t.raised
    && t.accepted + t.raised <= 1
    && (verdict == GoOn ==> t.accepted == 0 && t.raised == 0 && t.consecutive < c.maxConsecutiveToolErrors)
    && (verdict == Completed <==> t.accepted == 1)
    && (verdict == Failed(ConsecutiveErrorLimit) <==>
          t.consecutive == c.maxConsecutiveToolErrors && verdict != Failed(OtherError))
    && t.consecutive <= c.maxConsecutiveToolErrors
    && t.consecutive <= t.warnings + t.rejected + t.failedCalls
    && t.failedCalls <= t.toolCalls
  }

  /** The iterations split exactly into tool calls, repeat warnings, rejected finals, an accepted final and an
      error raised before any of these; and at each loop head fewer errors than the limit are in a row. */
  lemma {:induction false} IterationsSplit(c: Config, script: nat -> Reply, n: nat)
    requires ValidConfig(c)
    ensures var (t, verdict) := After(c, script, n);
            Accounts(c, t, verdict) && t.iterations <= n && (verdict == GoOn ==> t.iterations == n)
  {
    if n > 0 {
      IterationsSplit(c, script, n - 1);
      var (t, verdict) := After(c, script, n - 1);
      if verdict == GoOn { TurnAccounts(c, t, script(n - 1)); }
    }
  }

  lemma TurnAccounts(c: Config, t: Tally, reply: Reply)
    requires ValidConfig(c) && Accounts(c, t, GoOn)
    ensures var (after, verdict) := Turn(c, t, reply);
            Accounts(c, after, verdict) && after.iterations == t.iterations + 1
  {
  }

  /** A run ends after at most `max_iterations` model calls, completed only by an accepted final. */
  lemma RunIsBounded(c: Config, script: nat -> Reply)
    requires ValidConfig(c)
    ensures var (t, verdict) := Outcome(c, script);
            && verdict != GoOn
            && t.iterations <= c.maxIterations
            && (verdict == Completed <==> t.accepted == 1)
            && (verdict == Failed(MaxIterationsExceeded) <==> After(c, script, c.maxIterations).1 == GoOn)
            && (verdict == Failed(MaxIterationsExceeded) ==>
                  t.iterations == c.maxIterations && t.accepted == t.raised == 0)
  {
    IterationsSplit(c, script, c.maxIterations);
    NoMaxIterations(c, script, c.maxIterations);
  }

  lemma {:induction false} NoMaxIterations(c: Config, script: nat -> Reply, n: nat)
    ensures After(c, script, n).1 != Failed(MaxIterationsExceeded)
  {
    if n > 0 { NoMaxIterations(c, script, n - 1); }
  }

  // ---- What the counters count

  /** A reply that comes after `calls` is a tool decision that is carried out. */
  ghost predicate CarriedOut(c: Config, calls: seq<Call>, reply: Reply) {
    reply.Tool? && !Repeats(calls, Fingerprint(reply.name, reply.arguments), c.repeatedActionLimit)
  }

  /** The j-th reply is. */
  ghost predicate ExecutedAt(c: Config, script: nat -> Reply, j: nat) {
    CarriedOut(c, After(c, script, j).0.calls, script(j))
  }

  ghost predicate SucceedsAt(c: Config, script: nat -> Reply, j: nat) {
    ExecutedAt(c, script, j) && script(j).outcome.Result? && script(j).outcome.ok
  }

  datatype Kind = CallExecuted | CallFailed | CallRefused | FinalGiven

  ghost predicate IsOf(c: Config, calls: seq<Call>, reply: Reply, kind: Kind) {
    match kind
    case CallExecuted => CarriedOut(c, calls, reply)
    case CallFailed => CarriedOut(c, calls, reply) && !(reply.outcome.Result? && reply.outcome.ok)
    case CallRefused => reply.Tool? && !CarriedOut(c, calls, reply)
    case FinalGiven => reply.Final?
  }

  ghost function HowMany(c: Config, script: nat -> Reply, n: nat, kind: Kind): nat {
    if n == 0 then 0
    else
      var before := After(c, script, n - 1).0.calls;
      HowMany(c, script, n - 1, kind) + if IsOf(c, before, script(n - 1), kind) then 1 else 0
  }

  function CounterOf(t: Tally, kind: Kind): nat {
    match kind
    case CallExecuted => t.toolCalls
    case CallFailed => t.failedCalls
    case CallRefused => t.warnings
    case FinalGiven => t.rejected + t.accepted
  }

  /** Tool calls are the decisions carried out, failed ones those of them without success, warnings the decisions
      refused, rejected and accepted finals the finals; only a last iteration that ended by an exception may be
      missing. */
  lemma {:induction false} CountersCount(c: Config, script: nat -> Reply, n: nat, kind: Kind)
    requires ValidConfig(c)
    ensures var t := After(c, script, n).0;
            CounterOf(t, kind) <= HowMany(c, script, t.iterations, kind) <= CounterOf(t, kind) + t.raised
  {
    if n > 0 {
      CountersCount(c, script, n - 1, kind);
      var (t, verdict) := After(c, script, n - 1);
      if verdict == GoOn {
        EachIterationCounts(c, script, n - 1);
        TurnCounts(c, t, script(n - 1), kind);
      }
    }
  }

  lemma EachIterationCounts(c: Config, script: nat -> Reply, n: nat)
    requires ValidConfig(c) && After(c, script, n).1 == GoOn
    ensures After(c, script, n).0.iterations == n
  {
    IterationsSplit(c, script, n);
  }

  lemma TurnCounts(c: Config, t: Tally, reply: Reply, kind: Kind)
    ensures var after, one := Turn(c, t, reply).0, if IsOf(c, t.calls, reply, kind) then 1 else 0;
            && after.iterations == t.iterations + 1
            && CounterOf(after, kind) - CounterOf(t, kind) <= one
            && one <= CounterOf(after, kind) + after.raised - CounterOf(t, kind) - t.raised
  {
  }

  /** At each loop head the errors in a row are the iterations since the last success: that many have passed
      without one, and the one before them was one. */
  lemma {:induction false} ErrorsInARow(c: Config, script: nat -> Reply, n: nat)
    requires ValidConfig(c) && After(c, script, n).1 == GoOn
    ensures var k := After(c, script, n).0.consecutive;
            && k <= n
            && (forall j :: n - k <= j < n ==> !SucceedsAt(c, script, j))
            && (k < n ==> SucceedsAt(c, script, n - k - 1))
  {
    if n > 0 { ErrorsInARow(c, script, n - 1); }
  }

  /** The run goes on exactly after a success, and after an error that can be recovered from and is not the last
      one permitted; exceptions, accepted finals and unrecoverable errors end it. */
  lemma GoesOnIff(c: Config, script: nat -> Reply, n: nat)
    requires ValidConfig(c) && After(c, script, n).1 == GoOn
    ensures var reply, errors := script(n), After(c, script, n).0.consecutive + 1;
            After(c, script, n + 1).1 == GoOn <==>
              || (SucceedsAt(c, script, n) && !reply.noteRaises)
              || (errors < c.maxConsecutiveToolErrors && !SucceedsAt(c, script, n) &&
                  ((reply.Final? && reply.guard == Rejects && !reply.noteRaises) ||
                   (reply.Tool? && !reply.noteRaises &&
                    (ExecutedAt(c, script, n) ==> reply.outcome.Result? && reply.outcome.recoverable))))
  {
  }

  // ---- Which calls are refused as repetitions

  /** A fingerprint names its call, unless one name continues the other with a colon and the arguments make up
      for it. */
  lemma FingerprintsAgreeIff(one: Call, two: Call)
    ensures FingerprintOf(one) == FingerprintOf(two) <==>
              || (one.name == two.name && one.arguments == two.arguments)
              || Continues(one, two)
              || Continues(two, one)
  {
    var f, g := FingerprintOf(one), FingerprintOf(two);
    NameIn(one);
    NameIn(two);
    if f == g {
      if |one.name| <= |two.name| { SplitAt(one, two); } else { SplitAt(two, one); }
    } else {
      if Continues(one, two) { ContinuedAgree(one, two); }
      if Continues(two, one) { ContinuedAgree(two, one); }
    }
  }

  /** The name of `long` is that of `short`, a colon, and the start of the arguments of `short`. */
  ghost predicate Continues(short: Call, long: Call) {
    && short.name + ":" <= long.name
    && short.arguments == long.name[|short.name| + 1..] + ":" + long.arguments
  }

  lemma ContinuedAgree(short: Call, long: Call)
    requires Continues(short, long)
    ensures FingerprintOf(short) == FingerprintOf(long)
  {
    assert long.name == short.name + ":" + long.name[|short.name| + 1..];
  }

  lemma NameIn(call: Call)
    ensures var f := FingerprintOf(call);
            && call.name + ":" <= f && f[|call.name|] == ':' && f[|call.name| + 1..] == call.arguments
            && f[..|call.name|] == call.name
  {
  }

  lemma SplitAt(one: Call, two: Call)
    requires FingerprintOf(one) == FingerprintOf(two) && |one.name| <= |two.name|
    ensures if |one.name| == |two.name| then one.name == two.name && one.arguments == two.arguments
            else Continues(one, two)
  {
    var f := FingerprintOf(one);
    NameIn(one);
    NameIn(two);
    if |one.name| < |two.name| {
      assert two.name == f[..|two.name|] && two.name[..|one.name| + 1] == f[..|one.name| + 1];
      assert one.arguments == f[|one.name| + 1..|two.name|] + [f[|two.name|]] + f[|two.name| + 1..];
    }
  }

  /** So where names have no colon, equal fingerprints mean the same call. */
  lemma FingerprintsDistinguish(one: Call, two: Call)
    requires ':' !in one.name && ':' !in two.name
    ensures FingerprintOf(one) == FingerprintOf(two) <==> one.name == two.name && one.arguments == two.arguments
  {
    FingerprintsAgreeIff(one, two);
    ContinuingTakesColon(one, two);
    ContinuingTakesColon(two, one);
  }

  lemma ContinuingTakesColon(short: Call, long: Call)
    ensures Continues(short, long) ==> ':' in long.name
  {
    if Continues(short, long) { assert long.name[|short.name|] == ':'; }
  }

  /** The i-th call and the `limit - 1` before it have one name and the same arguments. */
  ghost predicate EndsRepetition(calls: seq<Call>, i: nat, limit: nat)
    requires i < |calls|
  {
    i + 1 >= limit &&
    forall j :: i + 1 - limit <= j < i ==> calls[j].name == calls[i].name && calls[j].arguments == calls[i].arguments
  }

  ghost predicate NamesHaveNoColon(calls: seq<Call>) {
    forall call :: call in calls ==> ':' !in call.name
  }

  /** A call that ends `repeated_action_limit` identical ones in a row is not executed; and, names having no
      colon, every other one is. */
  ghost predicate ExecutedUnlessRepeated(c: Config, calls: seq<Call>) {
    && (forall i: nat :: i < |calls| && EndsRepetition(calls, i, c.repeatedActionLimit) ==> !calls[i].executed)
    && (NamesHaveNoColon(calls) ==>
          forall i: nat :: i < |calls| && !EndsRepetition(calls, i, c.repeatedActionLimit) ==> calls[i].executed)
  }

  /** What the loop does, in fingerprints. */
  ghost predicate ExecutedByFingerprint(c: Config, calls: seq<Call>) {
    forall i :: 0 <= i < |calls| ==>
        (calls[i].executed <==> !Repeats(calls[..i], FingerprintOf(calls[i]), c.repeatedActionLimit))
  }

  lemma {:induction false} FingerprintsDecide(c: Config, script: nat -> Reply, n: nat)
    ensures ExecutedByFingerprint(c, After(c, script, n).0.calls)
  {
    if n > 0 {
      FingerprintsDecide(c, script, n - 1);
      var (t, verdict) := After(c, script, n - 1);
      if verdict == GoOn {
        TurnDecides(c, t, script(n - 1));
      }
    }
  }

  lemma TurnDecides(c: Config, t: Tally, reply: Reply)
    requires ExecutedByFingerprint(c, t.calls)
    ensures ExecutedByFingerprint(c, Turn(c, t, reply).0.calls)
  {
    if reply.Tool? {
      OneMoreDecided(c, t.calls, Call(reply.name, reply.arguments, CarriedOut(c, t.calls, reply)));
    }
  }

  lemma OneMoreDecided(c: Config, calls: seq<Call>, call: Call)
    requires ExecutedByFingerprint(c, calls)
    requires call.executed <==> !Repeats(calls, FingerprintOf(call), c.repeatedActionLimit)
    ensures ExecutedByFingerprint(c, calls + [call])
  {
    var more := calls + [call];
    forall i | 0 <= i < |more|
      ensures more[i].executed <==> !Repeats(more[..i], FingerprintOf(more[i]), c.repeatedActionLimit)
    {
      assert more[..i] == calls[..i];
      if i == |calls| { assert calls[..i] == calls; }
    }
  }

  lemma RepeatsIff(calls: seq<Call>, i: nat, limit: nat)
    requires i < |calls| && limit >= 1
    ensures EndsRepetition(calls, i, limit) ==> Repeats(calls[..i], FingerprintOf(calls[i]), limit)
    ensures NamesHaveNoColon(calls) && Repeats(calls[..i], FingerprintOf(calls[i]), limit) ==>
              EndsRepetition(calls, i, limit)
  {
    if NamesHaveNoColon(calls) && Repeats(calls[..i], FingerprintOf(calls[i]), limit) {
      forall j | i + 1 - limit <= j < i
        ensures calls[j].name == calls[i].name && calls[j].arguments == calls[i].arguments
      {
        assert calls[..i][j] == calls[j] && calls[i] in calls && calls[j] in calls;
        FingerprintsDistinguish(calls[j], calls[i]);
      }
    }
  }

  lemma RepeatedCallsAreNotExecuted(c: Config, script: nat -> Reply, n: nat)
    requires ValidConfig(c)
    ensures ExecutedUnlessRepeated(c, After(c, script, n).0.calls)
  {
    var calls := After(c, script, n).0.calls;
    FingerprintsDecide(c, script, n);
    forall i: nat | i < |calls|
      ensures EndsRepetition(calls, i, c.repeatedActionLimit) ==> !calls[i].executed
      ensures NamesHaveNoColon(calls) && !EndsRepetition(calls, i, c.repeatedActionLimit) ==> calls[i].executed
    {
      RepeatsIff(calls, i, c.repeatedActionLimit);
    }
  }

  /** Names and arguments of the tool decisions among the first `n` replies. */
  function Decisions(script: nat -> Reply, n: nat): seq<(string, string)> {
    if n == 0 then []
    else Decisions(script, n - 1) + if script(n - 1).Tool? then [(script(n - 1).name, script(n - 1).arguments)] else []
  }

  function Named(calls: seq<Call>): seq<(string, string)> {
    seq(|calls|, i requires 0 <= i < |calls| => (calls[i].name, calls[i].arguments))
  }

  /** The calls on record are the tool decisions the model made, in order. */
  lemma {:induction false} CallsAreTheDecisions(c: Config, script: nat -> Reply, n: nat)
    requires ValidConfig(c)
    ensures var t := After(c, script, n).0; Named(t.calls) == Decisions(script, t.iterations)
  {
    if n > 0 {
      CallsAreTheDecisions(c, script, n - 1);
      var (t, verdict) := After(c, script, n - 1);
      if verdict == GoOn {
        EachIterationCounts(c, script, n - 1);
        TurnRecords(c, t, script(n - 1));
      }
    }
  }

  lemma TurnRecords(c: Config, t: Tally, reply: Reply)
    ensures var after := Turn(c, t, reply).0;
            && after.iterations == t.iterations + 1
            && Named(after.calls) == Named(t.calls) + if reply.Tool? then [(reply.name, reply.arguments)] else []
  {
    var after := Turn(c, t, reply).0;
    if reply.Tool? { assert after.calls == t.calls + [after.calls[|t.calls|]]; }
  }

  /** So the last of any `limit` identical decisions in a row of the model was not executed. */
  lemma LastOfRepetitionIsNotExecuted(c: Config, script: nat -> Reply, n: nat, i: nat)
    requires ValidConfig(c)
    requires var made := Decisions(script, After(c, script, n).0.iterations);
             && i + c.repeatedActionLimit <= |made|
             && forall j :: i <= j < i + c.repeatedActionLimit ==> made[j] == made[i]
    ensures var calls, last := After(c, script, n).0.calls, i + c.repeatedActionLimit - 1;
            last < |calls| && !calls[last].executed
  {
    CallsAreTheDecisions(c, script, n);
    RepeatedCallsAreNotExecuted(c, script, n);
    var calls, last := After(c, script, n).0.calls, i + c.repeatedActionLimit - 1;
    forall j | i <= j <= last ensures calls[j].name == calls[i].name && calls[j].arguments == calls[i].arguments {
      assert Named(calls)[j] == Named(calls)[i];
    }
    assert EndsRepetition(calls, last, c.repeatedActionLimit);
  }

  /** And conversely: a decision that was not executed had the same name and arguments as the `limit - 1` before
      it, unless a tool name has a colon. */
  lemma RefusedIsRepetition(c: Config, script: nat -> Reply, n: nat, last: nat)
    requires ValidConfig(c) && last < |After(c, script, n).0.calls| && !After(c, script, n).0.calls[last].executed
    ensures var made := Decisions(script, After(c, script, n).0.iterations);
            && last < |made|
            && ((forall d :: d in made ==> ':' !in d.0) ==>
                  && last + 1 >= c.repeatedActionLimit
                  && forall j :: last + 1 - c.repeatedActionLimit <= j < last ==> made[j] == made[last])
  {
    CallsAreTheDecisions(c, script, n);
    RepeatedCallsAreNotExecuted(c, script, n);
    var calls := After(c, script, n).0.calls;
    var made := Named(calls);
    if forall d :: d in made ==> ':' !in d.0 {
      forall call | call in calls ensures ':' !in call.name {
        var k :| 0 <= k < |calls| && calls[k] == call;
        assert made[k] in made;
      }
      assert EndsRepetition(calls, last, c.repeatedActionLimit);
      forall j | last + 1 - c.repeatedActionLimit <= j < last ensures made[j] == made[last] {}
    }
  }

  /** With a colon in a name two different calls pass for one. */
  lemma ColonsCollide()
    ensures FingerprintOf(Call("a", "b:c", true)) == FingerprintOf(Call("a:b", "c", true))
  {
    ContinuedAgree(Call("a", "b:c", true), Call("a:b", "c", true));
  }

  ghost predicate SameCall(script: nat -> Reply, n: nat, f: string) {
    forall k :: k >= n ==> script(k).Tool? && Fingerprint(script(k).name, script(k).arguments) == f
  }

  /** The number of calls at the end of `calls` that are `f`. */
  function Streak(calls: seq<Call>, f: string): nat {
    if calls != [] && FingerprintOf(calls[|calls| - 1]) == f then 1 + Streak(calls[..|calls| - 1], f) else 0
  }

  lemma {:induction false} StreakMeans(calls: seq<Call>, f: string, limit: nat)
    requires limit >= 1
    ensures Repeats(calls, f, limit) <==> Streak(calls, f) + 1 >= limit
    decreases |calls|
  {
    if limit > 1 && calls != [] {
      StreakMeans(calls[..|calls| - 1], f, limit - 1);
    }
  }

  /** `m` replies into a repetition that goes on: either fewer than `limit - 1` calls have been made, or each
      further reply has been a warning. */
  lemma {:induction false} RepetitionProgress(c: Config, script: nat -> Reply, n: nat, f: string, m: nat)
    requires ValidConfig(c) && SameCall(script, n, f) && After(c, script, n + m).1 == GoOn
    ensures var t := After(c, script, n + m).0;
            Streak(t.calls, f) >= m &&
                (m >= c.repeatedActionLimit - 1 ==> t.consecutive >= m - (c.repeatedActionLimit - 1))
  {
    if m > 0 {
      RepetitionProgress(c, script, n, f, m - 1);
      var before, after := After(c, script, n + m - 1).0, After(c, script, n + m).0;
      var reply := script(n + m - 1);
      StreakMeans(before.calls, f, c.repeatedActionLimit);
      assert after.calls[..|before.calls|] == before.calls;
    }
  }

  /** A model that from some point on repeats one call is stopped within
      `repeated_action_limit - 1 + max_consecutive_tool_errors` further iterations. */
  lemma RepeatingModelIsStopped(c: Config, script: nat -> Reply, n: nat, f: string)
    requires ValidConfig(c) && SameCall(script, n, f)
    ensures After(c, script, n + c.repeatedActionLimit - 1 + c.maxConsecutiveToolErrors).1 != GoOn
  {
    var m := c.repeatedActionLimit - 1 + c.maxConsecutiveToolErrors;
    IterationsSplit(c, script, n + m);
    if After(c, script, n + m).1 == GoOn {
      RepetitionProgress(c, script, n, f, m);
    }
  }

  /** The bound is tight: a call that succeeds lets the run go on until just before it. */
  lemma {:induction false} BoundIsReached(c: Config, name: string, arguments: string, m: nat)
    requires ValidConfig(c) && m < c.repeatedActionLimit - 1 + c.maxConsecutiveToolErrors
    ensures var (t, verdict) := After(c, _ => Tool(name, arguments, Result(true, true), false), m);
            && verdict == GoOn && Streak(t.calls, Fingerprint(name, arguments)) == |t.calls| == m
            && t.consecutive == if m < c.repeatedActionLimit then 0 else m - (c.repeatedActionLimit - 1)
  {
    if m > 0 {
      BoundIsReached(c, name, arguments, m - 1);
      var script: nat -> Reply := _ => Tool(name, arguments, Result(true, true), false);
      var before := After(c, script, m - 1).0;
      StreakMeans(before.calls, Fingerprint(name, arguments), c.repeatedActionLimit);
      assert After(c, script, m).0.calls[..m - 1] == before.calls;
    }
  }
}
