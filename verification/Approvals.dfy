/** What the events of one tool call may look like: the rules of approval-gated execution. */
module Approvals {
  import opened Model

  datatype Question = SandboxRequests | Preview | Permission | TerminalOpen | SandboxResult

  datatype Answer = Yes | No | HandlerRaises | HandlerTimesOut

  /** What computing the permission requests does; an error may be a sandbox denial, of root escalation. */
  datatype Requests = Requests | InvalidRequest | HarnessError(sandbox: bool, rootEscalation: bool) | RequestsRaise

  /** `PreviewResult`: the preview ends the call with a result of its own. */
  datatype PreviewOutcome = NoPreview | Shown | PreviewResult | PreviewTimesOut | PreviewRaises

  datatype RunOutcome = Result(denied: bool, rootEscalation: bool) | RunTimesOut | RunRaises

  datatype Config = Config(hasHandler: bool, allowUnguardedWrite: bool, approveSandboxDenials: bool,
                           approveTerminalOpen: bool, approveRootEscalation: bool)

  /** Code that may enter the override itself: `With` is a block under `approved_sandbox()` and what comes
      after it; `Raise` leaves every block it is in. */
  datatype Body = Return | Raise | With(block: Body, rest: Body)

  predicate Raises(body: Body) {
    match body
    case Return => false
    case Raise => true
    case With(block, rest) => Raises(block) || Raises(rest)
  }

  /** Everything outside the registry in one call: the tool (with the code of its requests under the override,
      its preview and its run), the policy, and the handler's answers. */
  datatype Call = Call(known: bool, requests: Requests, requestsApproved: Requests, policyAllows: bool,
                       opensTerminal: bool, preview: PreviewOutcome, first: RunOutcome, second: RunOutcome,
                       body: Body, answers: Question -> Answer)

  /** `depth` is the override depth the tool sees. */
  datatype Event = Asked(question: Question, answer: Answer) | Previewed(depth: int)
                   | Ran(depth: int, outcome: RunOutcome)

  function Runs(trace: seq<Event>): nat {
    if trace == [] then 0 else Runs(trace[..|trace| - 1]) + (if trace[|trace| - 1].Ran? then 1 else 0)
  }

  /** Nothing follows these. */
  predicate Stops(e: Event) {
    (e.Asked? && e.answer != Yes) || (e.Ran? && !e.outcome.Result?)
  }

  /** The questions answered yes. */
  function Approved(trace: seq<Event>): set<Question> {
    if trace == [] then {}
    else
      var last := trace[|trace| - 1];
      Approved(trace[..|trace| - 1]) + (if last.Asked? && last.answer == Yes then {last.question} else {})
  }

  lemma {:induction false} ApprovedMeans(trace: seq<Event>, q: Question)
    ensures q in Approved(trace) <==> Asked(q, Yes) in trace
  {
    if trace != [] {
      ApprovedMeans(trace[..|trace| - 1], q);
      assert trace == trace[..|trace| - 1] + [trace[|trace| - 1]];
    }
  }

  predicate SandboxApproved(trace: seq<Event>) {
    SandboxRequests in Approved(trace) || SandboxResult in Approved(trace)
  }

  predicate Permitted(call: Call, trace: seq<Event>) {
    call.policyAllows || Preview in Approved(trace) || Permission in Approved(trace)
  }

  predicate MayAskSandbox(c: Config, rootEscalation: bool) {
    c.hasHandler && c.approveSandboxDenials && (c.approveRootEscalation || !rootEscalation)
  }

  /** The override is active exactly after a yes to a sandbox question. */
  function DepthAfter(trace: seq<Event>, entry: int): int {
    if SandboxApproved(trace) then entry + 1 else entry
  }

  /** May `e` come next?  A run needs permission, and a second one a denial and a further yes.  About the
      sandbox the user is asked only if that is configured, and about root escalation only if that is too. */
  predicate Allowed(c: Config, call: Call, entry: int, history: seq<Event>, e: Event) {
    && (history != [] ==> !Stops(history[|history| - 1]))
    && match e
       case Asked(q, a) =>
         && c.hasHandler && a == call.answers(q)
         && (q == SandboxRequests ==>
               && history == [] && c.approveSandboxDenials && call.requests.HarnessError? && call.requests.sandbox
               && (call.requests.rootEscalation ==> c.approveRootEscalation))
         && (q == SandboxResult ==>
               && history != [] && history[|history| - 1].Ran? && history[|history| - 1].outcome.denied
               && Runs(history) == 1 && !SandboxApproved(history) && c.approveSandboxDenials
               && (history[|history| - 1].outcome.rootEscalation ==> c.approveRootEscalation))
         && (q != SandboxResult ==> Runs(history) == 0)
       case Previewed(depth) => depth == DepthAfter(history, entry) && Runs(history) == 0
       case Ran(depth, outcome) =>
         && depth == DepthAfter(history, entry)
         && outcome == (if Runs(history) == 0 then call.first else call.second)
         && Permitted(call, history)
         && (c.approveTerminalOpen && call.opensTerminal ==> TerminalOpen in Approved(history))
         && (Runs(history) > 0 ==> Runs(history) == 1 && history[|history| - 1] == Asked(SandboxResult, Yes))
  }

  predicate Lawful(c: Config, call: Call, entry: int, trace: seq<Event>) {
    trace == [] || (Lawful(c, call, entry, trace[..|trace| - 1]) &&
        Allowed(c, call, entry, trace[..|trace| - 1], trace[|trace| - 1]))
  }

  /** `trace` with one more event that may come next. */
  lemma Append(c: Config, call: Call, entry: int, trace: seq<Event>, e: Event)
    requires Lawful(c, call, entry, trace) && Allowed(c, call, entry, trace, e)
    ensures Lawful(c, call, entry, trace + [e])
    ensures Runs(trace + [e]) == Runs(trace) + if e.Ran? then 1 else 0
    ensures Approved(trace + [e]) == Approved(trace) + if e.Asked? && e.answer == Yes then {e.question} else {}
  {
    assert (trace + [e])[..|trace|] == trace;
  }

  lemma {:induction false} PrefixIsLawful(c: Config, call: Call, entry: int, trace: seq<Event>, n: nat)
    requires Lawful(c, call, entry, trace) && n <= |trace|
    ensures Lawful(c, call, entry, trace[..n])
    ensures n < |trace| ==> Allowed(c, call, entry, trace[..n], trace[n])
    decreases |trace|
  {
    if n < |trace| {
      var front := trace[..|trace| - 1];
      if n < |front| {
        PrefixIsLawful(c, call, entry, front, n);
        assert front[..n] == trace[..n];
      }
    } else {
      assert trace[..n] == trace;
    }
  }

  lemma {:induction false} RunsGrow(trace: seq<Event>, n: nat)
    requires n <= |trace|
    ensures Runs(trace[..n]) <= Runs(trace)
    ensures n < |trace| && trace[n].Ran? ==> Runs(trace[..n]) < Runs(trace)
    decreases |trace|
  {
    if n < |trace| {
      var front := trace[..|trace| - 1];
      assert front[..n] == trace[..n];
      if n < |front| { RunsGrow(front, n); }
    } else {
      assert trace[..n] == trace;
    }
  }

  lemma TwoRuns(trace: seq<Event>, i: nat, j: nat)
    requires i < j < |trace| && trace[i].Ran? && trace[j].Ran?
    ensures Runs(trace) >= 2
  {
    RunsGrow(trace, j);
    RunsGrow(trace[..j], i);
  }

  /** A tool runs at most twice. */
  lemma {:induction false} AtMostTwoRuns(c: Config, call: Call, entry: int, trace: seq<Event>)
    requires Lawful(c, call, entry, trace)
    ensures Runs(trace) <= 2
  {
    if trace != [] { AtMostTwoRuns(c, call, entry, trace[..|trace| - 1]); }
  }

  /** A run happens only when the policy allowed the requests or the user said yes before, and with the
      override exactly when the user said yes to a sandbox question before. */
  lemma RunNeedsApproval(c: Config, call: Call, entry: int, trace: seq<Event>, i: nat)
    requires Lawful(c, call, entry, trace) && i < |trace| && trace[i].Ran?
    ensures call.policyAllows || Asked(Preview, Yes) in trace[..i] || Asked(Permission, Yes) in trace[..i]
    ensures trace[i].depth in {entry, entry + 1}
    ensures trace[i].depth == entry + 1 <==>
              Asked(SandboxRequests, Yes) in trace[..i] || Asked(SandboxResult, Yes) in trace[..i]
    ensures c.approveTerminalOpen && call.opensTerminal ==> Asked(TerminalOpen, Yes) in trace[..i]
  {
    PrefixIsLawful(c, call, entry, trace, i);
    forall q ensures q in Approved(trace[..i]) <==> Asked(q, Yes) in trace[..i] { ApprovedMeans(trace[..i], q); }
  }

  predicate AsksSandbox(e: Event) {
    e.Asked? && (e.question == SandboxRequests || e.question == SandboxResult)
  }

  /** Without the configuration to approve sandbox denials, or without anybody to ask, there is no question
      about the sandbox and no run with the override.  Without the one to approve root escalation, none about
      root escalation, and if every denial is one, no run with the override. */
  lemma SandboxQuestionsAreConfigured(c: Config, call: Call, entry: int, trace: seq<Event>)
    requires Lawful(c, call, entry, trace)
    ensures !c.approveSandboxDenials || !c.hasHandler ==>
              forall e :: e in trace ==> !AsksSandbox(e) && (e.Ran? ==> e.depth == entry)
    ensures !c.approveRootEscalation ==>
              && (call.requests.HarnessError? && call.requests.rootEscalation ==>
                    forall e :: e in trace && e.Asked? ==> e.question != SandboxRequests)
              && (call.first.Result? && call.first.rootEscalation ==>
                    forall e :: e in trace && e.Asked? ==> e.question != SandboxResult)
              && ((call.requests.HarnessError? ==> call.requests.rootEscalation) &&
                  (call.first.Result? ==> call.first.rootEscalation) ==>
                    forall e :: e in trace && e.Ran? ==> e.depth == entry)
  {
    forall i: nat | i < |trace| && trace[i].Asked?
      ensures c.hasHandler
      ensures trace[i].question == SandboxRequests ==>
                c.approveSandboxDenials && call.requests.HarnessError? &&
                    (call.requests.rootEscalation ==> c.approveRootEscalation)
      ensures trace[i].question == SandboxResult ==>
                c.approveSandboxDenials && call.first.Result? && (call.first.rootEscalation ==> c.approveRootEscalation)
    {
      QuestionIsConfigured(c, call, entry, trace, i);
    }
    forall i: nat | i < |trace| && trace[i].Ran?
      ensures trace[i].depth == entry + 1 ==> exists j :: 0 <= j < i && AsksSandbox(trace[j])
      ensures trace[i].depth == entry || trace[i].depth == entry + 1
    {
      RunNeedsApproval(c, call, entry, trace, i);
      if trace[i].depth == entry + 1 {
        var q := if Asked(SandboxRequests, Yes) in trace[..i] then SandboxRequests else SandboxResult;
        var j :| 0 <= j < i && trace[..i][j] == Asked(q, Yes);
        assert AsksSandbox(trace[j]);
      }
    }
  }

  lemma QuestionIsConfigured(c: Config, call: Call, entry: int, trace: seq<Event>, i: nat)
    requires Lawful(c, call, entry, trace) && i < |trace| && trace[i].Asked?
    ensures c.hasHandler
    ensures trace[i].question == SandboxRequests ==>
              c.approveSandboxDenials && call.requests.HarnessError? &&
                  (call.requests.rootEscalation ==> c.approveRootEscalation)
    ensures trace[i].question == SandboxResult ==>
              c.approveSandboxDenials && call.first.Result? && (call.first.rootEscalation ==> c.approveRootEscalation)
  {
    PrefixIsLawful(c, call, entry, trace, i);
    if trace[i].question == SandboxResult {
      PrefixIsLawful(c, call, entry, trace, i - 1);
      assert trace[..i][..i - 1] == trace[..i - 1];
    }
  }

  /** A refusal, an exception or a timeout is the last thing that happens. */
  lemma NothingAfterRefusal(c: Config, call: Call, entry: int, trace: seq<Event>, i: nat)
    requires Lawful(c, call, entry, trace) && i + 1 < |trace|
    ensures trace[i].Asked? ==> trace[i].answer == Yes
    ensures trace[i].Ran? ==> trace[i].outcome.Result?
  {
    PrefixIsLawful(c, call, entry, trace, i + 1);
  }

  /** The second run directly follows a sandbox denial of the first, which ran without the override, and a
      further yes; it has the override. */
  lemma SecondRunNeedsDenial(c: Config, call: Call, entry: int, trace: seq<Event>, i: nat, j: nat)
    requires Lawful(c, call, entry, trace) && i < j < |trace| && trace[i].Ran? && trace[j].Ran?
    ensures j == i + 2 && trace[i + 1] == Asked(SandboxResult, Yes)
    ensures trace[i].outcome.Result? && trace[i].outcome.denied
    ensures trace[i].depth == entry && trace[j].depth == entry + 1
  {
    PrefixIsLawful(c, call, entry, trace, i);
    PrefixIsLawful(c, call, entry, trace, j);
    TwoRuns(trace[..j + 1], i, j);
    assert trace[..j + 1][..j] == trace[..j];
    RunsGrow(trace[..j], i);
    assert trace[..j][j - 1] == trace[j - 1];
    PrefixIsLawful(c, call, entry, trace, j - 1);
    assert trace[..j - 1][j - 2] == trace[j - 2];
    if i < j - 2 { TwoRuns(trace[..j - 1], i, j - 2); }
  }
}
