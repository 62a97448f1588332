/** What a tool call does and how it ends, as functions of the configuration and of everything outside the
    registry; and what that means, said of the trace in the fields of configuration and call. */
module ToolTrace {
  import opened Model
  import opened Approvals

  datatype Meta = Meta(permissionOverride: bool, sandboxOverride: bool, terminalOpenApproved: bool,
                       previewApproved: bool, approvedByUser: Option<bool>)

  datatype Outcome =
    | UnknownTool
    | InvalidArguments
    | HarnessErrorResult(approvedByUser: Option<bool>)
    | PermissionDenied
    | PreviewEnded
    | TimedOut
    | Raised
    | Returned(result: RunOutcome, meta: Meta)

  // ---- Conditions

  predicate AsksForRequests(c: Config, call: Call) {
    call.requests.HarnessError? && call.requests.sandbox && MayAskSandbox(c, call.requests.rootEscalation)
  }

  /** The requests of the call are obtained, if need be under an approved override. */
  predicate ObtainsRequests(c: Config, call: Call) {
    call.requests.Requests? ||
        (AsksForRequests(c, call) && call.answers(SandboxRequests) == Yes && call.requestsApproved.Requests?)
  }

  /** The requests of the call are there, and nothing is missing that nobody could be asked for. */
  predicate Proceeds(c: Config, call: Call) {
    call.known && ObtainsRequests(c, call) && (call.policyAllows || c.hasHandler)
  }

  /** The preview is made and ends the call. */
  predicate PreviewBlocks(c: Config, call: Call) {
    (c.hasHandler || !c.allowUnguardedWrite) && call.preview !in {NoPreview, Shown}
  }

  predicate AsksForPreview(c: Config, call: Call) {
    c.hasHandler && call.preview == Shown
  }

  /** Whatever is asked about the preview or the permission is answered yes. */
  predicate Agreed(c: Config, call: Call) {
    if AsksForPreview(c, call) then call.answers(Preview) == Yes
    else call.policyAllows || call.answers(Permission) == Yes
  }

  /** A terminal is opened, and that is to be approved. */
  predicate NeedsTerminal(c: Config, call: Call) {
    c.approveTerminalOpen && call.opensTerminal
  }

  /** What has to happen for the tool to run. */
  predicate Cleared(c: Config, call: Call) {
    && Proceeds(c, call) && !PreviewBlocks(c, call) && Agreed(c, call)
    && (NeedsTerminal(c, call) ==> c.hasHandler && call.answers(TerminalOpen) == Yes)
  }

  /** The first run, made without the override, is denied and the user can be asked. */
  predicate AsksAfterDenial(c: Config, call: Call) {
    call.requests.Requests? && call.first.Result? && call.first.denied && MayAskSandbox(c, call.first.rootEscalation)
  }

  // ---- Everything a call does, in order

  ghost function RequestEvents(c: Config, call: Call): seq<Event> {
    if call.known && AsksForRequests(c, call) then [Asked(SandboxRequests, call.answers(SandboxRequests))] else []
  }

  ghost function PreviewEvents(c: Config, call: Call, depth: int): seq<Event> {
    if (c.hasHandler || !c.allowUnguardedWrite) && call.preview != NoPreview then [Previewed(depth)] else []
  }

  ghost function AgreementEvents(c: Config, call: Call): seq<Event> {
    if AsksForPreview(c, call) then [Asked(Preview, call.answers(Preview))]
    else if !call.policyAllows then [Asked(Permission, call.answers(Permission))]
    else []
  }

  ghost function TerminalEvents(c: Config, call: Call): seq<Event> {
    if NeedsTerminal(c, call) && c.hasHandler then [Asked(TerminalOpen, call.answers(TerminalOpen))] else []
  }

  ghost function QuestionEvents(c: Config, call: Call): seq<Event> {
    AgreementEvents(c, call) + if Agreed(c, call) then TerminalEvents(c, call) else []
  }

  /** From the preview to the last question before the run. */
  ghost function ApprovalEvents(c: Config, call: Call, depth: int): seq<Event> {
    PreviewEvents(c, call, depth) + if PreviewBlocks(c, call) then [] else QuestionEvents(c, call)
  }

  ghost function RunEvents(c: Config, call: Call, depth: int): seq<Event> {
    if !AsksAfterDenial(c, call) then [Ran(depth, call.first)]
    else if call.answers(SandboxResult) != Yes then
      [Ran(depth, call.first), Asked(SandboxResult, call.answers(SandboxResult))]
    else [Ran(depth, call.first), Asked(SandboxResult, Yes), Ran(depth + 1, call.second)]
  }

  /** From the preview on. */
  ghost function LaterEvents(c: Config, call: Call, depth: int): seq<Event> {
    ApprovalEvents(c, call, depth) + if Cleared(c, call) then RunEvents(c, call, depth) else []
  }

  ghost function Trace(c: Config, call: Call, entry: int): seq<Event> {
    var depth := if call.requests.Requests? then entry else entry + 1;
    RequestEvents(c, call) + if Proceeds(c, call) then LaterEvents(c, call, depth) else []
  }

  lemma Concat<T>(a: seq<T>, b: seq<T>, c: seq<T>)
    ensures a + b + c == a + (b + c) && a + [] == a
  {
  }

  // ---- How it ends

  /** A question inside the `try` that is not answered yes. */
  function Refused(answer: Answer): Outcome {
    match answer
    case HandlerRaises => Raised
    case HandlerTimesOut => TimedOut
    case _ => PermissionDenied
  }

  function Failure(run: RunOutcome): Outcome {
    if run.RunTimesOut? then TimedOut else Raised
  }

  function WithoutRequests(c: Config, call: Call): Outcome {
    match call.requests
    case InvalidRequest => InvalidArguments
    case HarnessError(_, _) =>
      if !AsksForRequests(c, call) then HarnessErrorResult(None)
      else if call.answers(SandboxRequests) == No then HarnessErrorResult(Some(false))
      else Raised
    case _ => Raised
  }

  function PreviewFailure(call: Call): Outcome {
    match call.preview
    case PreviewResult => PreviewEnded
    case PreviewTimesOut => TimedOut
    case _ => Raised
  }

  /** `approved_by_user`: false after a refused sandbox approval, unless something else was approved. */
  function Annotated(meta: Meta, refused: bool): Meta {
    if meta.permissionOverride || meta.sandboxOverride || meta.terminalOpenApproved || meta.previewApproved
    then meta.(approvedByUser := Some(true))
    else meta.(approvedByUser := if refused then Some(false) else None)
  }

  function MetaOf(c: Config, call: Call): Meta {
    Meta(!call.policyAllows, !call.requests.Requests?, NeedsTerminal(c, call), AsksForPreview(c, call), None)
  }

  function SecondEnd(call: Call, meta: Meta): Outcome {
    if call.second.Result? then Returned(call.second, Annotated(meta.(sandboxOverride := true), false))
    else Failure(call.second)
  }

  function RunEnd(c: Config, call: Call): Outcome {
    var meta, answer := MetaOf(c, call), call.answers(SandboxResult);
    if !call.first.Result? then Failure(call.first)
    else if !AsksAfterDenial(c, call) then Returned(call.first, Annotated(meta, false))
    else if answer == No then Returned(call.first, Annotated(meta, true))
    else if answer != Yes then Refused(answer)
    else SecondEnd(call, meta)
  }

  function TerminalEnd(c: Config, call: Call): Outcome {
    if !NeedsTerminal(c, call) || (c.hasHandler && call.answers(TerminalOpen) == Yes) then RunEnd(c, call)
    else if !c.hasHandler then PermissionDenied
    else Refused(call.answers(TerminalOpen))
  }

  function LaterEnd(c: Config, call: Call): Outcome {
    if PreviewBlocks(c, call) then PreviewFailure(call)
    else if !Agreed(c, call) then Refused(call.answers(if AsksForPreview(c, call) then Preview else Permission))
    else TerminalEnd(c, call)
  }

  function End(c: Config, call: Call): Outcome {
    if !call.known then UnknownTool
    else if !ObtainsRequests(c, call) then WithoutRequests(c, call)
    else if !call.policyAllows && !c.hasHandler then PermissionDenied
    else LaterEnd(c, call)
  }

  // ---- When each thing happens

  ghost predicate AskedIn(trace: seq<Event>, question: Question) {
    exists answer :: Asked(question, answer) in trace
  }

  ghost predicate RanIn(trace: seq<Event>) {
    exists e :: e in trace && e.Ran?
  }

  lemma InTrace(c: Config, call: Call, entry: int, e: Event)
    ensures var depth := if call.requests.Requests? then entry else entry + 1;
            e in Trace(c, call, entry) <==>
              || e in RequestEvents(c, call)
              || (Proceeds(c, call) && e in PreviewEvents(c, call, depth))
              || (Proceeds(c, call) && !PreviewBlocks(c, call) && e in AgreementEvents(c, call))
              || (Proceeds(c, call) && !PreviewBlocks(c, call) && Agreed(c, call) && e in TerminalEvents(c, call))
              || (Proceeds(c, call) && Cleared(c, call) && e in RunEvents(c, call, depth))
  {
  }

  lemma AskedInTrace(c: Config, call: Call, entry: int, question: Question)
    ensures AskedIn(Trace(c, call, entry), question) <==>
            Asked(question, call.answers(question)) in Trace(c, call, entry)
  {
    forall answer | Asked(question, answer) in Trace(c, call, entry) ensures answer == call.answers(question) {
      OneAnswer(c, call, entry, question, answer);
    }
  }

  lemma OneAnswer(c: Config, call: Call, entry: int, question: Question, answer: Answer)
    requires Asked(question, answer) in Trace(c, call, entry)
    ensures answer == call.answers(question)
  {
    InTrace(c, call, entry, Asked(question, answer));
  }

  /** The user is asked for the override before the run exactly when the sandbox denied the requests, that may be
      approved, and if it denied root escalation that may be too. */
  lemma RequestsAskedIff(c: Config, call: Call, entry: int)
    ensures AskedIn(Trace(c, call, entry), SandboxRequests) <==>
              && call.known && call.requests.HarnessError? && call.requests.sandbox
              && c.hasHandler && c.approveSandboxDenials
              && (call.requests.rootEscalation ==> c.approveRootEscalation)
  {
    AskedInTrace(c, call, entry, SandboxRequests);
    InTrace(c, call, entry, Asked(SandboxRequests, call.answers(SandboxRequests)));
  }

  /** The requests are there, at once or under an approved override, and the policy allows them or somebody can be
      asked. */
  ghost predicate GoesOn(c: Config, call: Call, trace: seq<Event>) {
    && call.known
    && (call.requests.Requests? || (Asked(SandboxRequests, Yes) in trace && call.requestsApproved.Requests?))
    && (call.policyAllows || c.hasHandler)
  }

  lemma GoesOnIff(c: Config, call: Call, entry: int)
    ensures GoesOn(c, call, Trace(c, call, entry)) <==> Proceeds(c, call)
  {
    InTrace(c, call, entry, Asked(SandboxRequests, Yes));
  }

  /** The preview is made exactly when the call goes on and has one, unless nobody would see it and unguarded
      writes are allowed; under the override exactly after it was approved. */
  lemma PreviewedIff(c: Config, call: Call, entry: int, depth: int)
    ensures Previewed(depth) in Trace(c, call, entry) <==>
              && GoesOn(c, call, Trace(c, call, entry))
              && call.preview != NoPreview && (c.hasHandler || !c.allowUnguardedWrite)
              && depth == if Asked(SandboxRequests, Yes) in Trace(c, call, entry) then entry + 1 else entry
  {
    GoesOnIff(c, call, entry);
    InTrace(c, call, entry, Previewed(depth));
    InTrace(c, call, entry, Asked(SandboxRequests, Yes));
  }

  /** A preview that is shown is always asked about, when somebody can be asked. */
  lemma PreviewAskedIff(c: Config, call: Call, entry: int)
    ensures AskedIn(Trace(c, call, entry), Preview) <==>
              GoesOn(c, call, Trace(c, call, entry)) && c.hasHandler && call.preview == Shown
  {
    GoesOnIff(c, call, entry);
    AskedInTrace(c, call, entry, Preview);
    InTrace(c, call, entry, Asked(Preview, call.answers(Preview)));
  }

  /** Permission is asked for exactly when the policy does not give it and no preview settles it. */
  lemma PermissionAskedIff(c: Config, call: Call, entry: int)
    ensures AskedIn(Trace(c, call, entry), Permission) <==>
              GoesOn(c, call, Trace(c, call, entry)) && !call.policyAllows && call.preview == NoPreview
  {
    GoesOnIff(c, call, entry);
    AskedInTrace(c, call, entry, Permission);
    InTrace(c, call, entry, Asked(Permission, call.answers(Permission)));
  }

  /** A preview neither made nor shown ends nothing; one that is made and not shown ends the call. */
  ghost predicate NotBlocked(c: Config, call: Call) {
    call.preview == NoPreview || call.preview == Shown || (!c.hasHandler && c.allowUnguardedWrite)
  }

  /** Opening a terminal is asked about exactly when that is configured and nothing before it was refused. */
  lemma TerminalOpenAskedIff(c: Config, call: Call, entry: int)
    ensures var trace := Trace(c, call, entry);
            AskedIn(trace, TerminalOpen) <==>
              && GoesOn(c, call, trace) && NotBlocked(c, call)
              && c.approveTerminalOpen && call.opensTerminal && c.hasHandler
              && (forall e :: e in trace && e.Asked? && e.question in {Preview, Permission} ==> e.answer == Yes)
  {
    var trace := Trace(c, call, entry);
    GoesOnIff(c, call, entry);
    AskedInTrace(c, call, entry, TerminalOpen);
    InTrace(c, call, entry, Asked(TerminalOpen, call.answers(TerminalOpen)));
    if Proceeds(c, call) && !PreviewBlocks(c, call) { AgreedMeans(c, call, entry); }
  }

  lemma AgreedMeans(c: Config, call: Call, entry: int)
    requires Proceeds(c, call) && !PreviewBlocks(c, call)
    ensures Agreed(c, call) <==>
            forall e :: e in Trace(c, call, entry) && e.Asked? && e.question in {Preview, Permission} ==>
                e.answer == Yes
  {
    forall e | e in AgreementEvents(c, call) ensures e in Trace(c, call, entry) { InTrace(c, call, entry, e); }
    assert AgreementEvents(c, call) != [] ==> AgreementEvents(c, call)[0] in AgreementEvents(c, call);
    forall e | e in Trace(c, call, entry) && e.Asked? && e.question in {Preview, Permission}
      ensures e in AgreementEvents(c, call)
    {
      InTrace(c, call, entry, e);
    }
  }

  /** The tool runs exactly when the call goes on, no preview ends it, every question before the run was answered
      yes, and nobody was missing to be asked about a terminal. */
  lemma RanIff(c: Config, call: Call, entry: int)
    ensures var trace := Trace(c, call, entry);
            RanIn(trace) <==>
              && GoesOn(c, call, trace) && NotBlocked(c, call)
              && (forall e :: e in trace && e.Asked? && e.question in {Preview, Permission, TerminalOpen} ==>
                    e.answer == Yes)
              && (c.approveTerminalOpen && call.opensTerminal ==> c.hasHandler)
  {
    var trace := Trace(c, call, entry);
    GoesOnIff(c, call, entry);
    if Proceeds(c, call) && !PreviewBlocks(c, call) {
      AgreedMeans(c, call, entry);
      if Agreed(c, call) { TerminalMeans(c, call, entry); }
      if Cleared(c, call) { FirstRun(c, call, entry); } else { NoRun(c, call, entry); }
    } else {
      NoRun(c, call, entry);
    }
  }

  lemma TerminalMeans(c: Config, call: Call, entry: int)
    requires Proceeds(c, call) && !PreviewBlocks(c, call) && Agreed(c, call)
    ensures (forall e :: e in TerminalEvents(c, call) ==> e.answer == Yes) <==>
            forall e :: e in Trace(c, call, entry) && e.Asked? && e.question == TerminalOpen ==> e.answer == Yes
  {
    forall e | e in TerminalEvents(c, call) ensures e in Trace(c, call, entry) { InTrace(c, call, entry, e); }
    forall e | e in Trace(c, call, entry) && e.Asked? && e.question == TerminalOpen
      ensures e in TerminalEvents(c, call)
    {
      InTrace(c, call, entry, e);
    }
  }

  lemma FirstRun(c: Config, call: Call, entry: int)
    requires Proceeds(c, call) && Cleared(c, call)
    ensures var depth := if call.requests.Requests? then entry else entry + 1;
            Ran(depth, call.first) in Trace(c, call, entry)
  {
    InTrace(c, call, entry, Ran(if call.requests.Requests? then entry else entry + 1, call.first));
  }

  lemma NoRun(c: Config, call: Call, entry: int)
    requires !Proceeds(c, call) || !Cleared(c, call)
    ensures !RanIn(Trace(c, call, entry))
  {
    forall e | e in Trace(c, call, entry) ensures !e.Ran? { InTrace(c, call, entry, e); }
  }

  /** After a run that the sandbox denied the user is asked exactly when it had no override, that may be approved,
      and if root escalation was denied that may be too. */
  lemma ResultAskedIff(c: Config, call: Call, entry: int)
    ensures var trace := Trace(c, call, entry);
            AskedIn(trace, SandboxResult) <==>
              && RanIn(trace) && call.requests.Requests? && call.first.Result? && call.first.denied
              && c.hasHandler && c.approveSandboxDenials
              && (call.first.rootEscalation ==> c.approveRootEscalation)
  {
    AskedInTrace(c, call, entry, SandboxResult);
    InTrace(c, call, entry, Asked(SandboxResult, call.answers(SandboxResult)));
    if Proceeds(c, call) && Cleared(c, call) { FirstRun(c, call, entry); } else { NoRun(c, call, entry); }
  }

  /** A yes to that question comes between the two runs, the second of which has the override. */
  lemma SecondRunIff(c: Config, call: Call, entry: int)
    ensures var trace := Trace(c, call, entry);
            Asked(SandboxResult, Yes) in trace <==>
              && |trace| >= 3
              && trace[|trace| - 3..] ==
                   [Ran(entry, call.first), Asked(SandboxResult, Yes), Ran(entry + 1, call.second)]
  {
    var trace := Trace(c, call, entry);
    if Asked(SandboxResult, Yes) in trace {
      YesIsFollowed(c, call, entry);
    } else if |trace| >= 3 {
      assert trace[|trace| - 3..][1] == trace[|trace| - 2];
    }
  }

  lemma YesIsFollowed(c: Config, call: Call, entry: int)
    requires Asked(SandboxResult, Yes) in Trace(c, call, entry)
    ensures var front := RequestEvents(c, call) + ApprovalEvents(c, call, entry);
            Trace(c, call, entry) ==
              front + [Ran(entry, call.first), Asked(SandboxResult, Yes), Ran(entry + 1, call.second)]
  {
    InTrace(c, call, entry, Asked(SandboxResult, Yes));
    Concat(RequestEvents(c, call), ApprovalEvents(c, call, entry), RunEvents(c, call, entry));
  }

  // ---- The trace is lawful

  /** Nothing has run, nothing was refused, and `approved` was approved. */
  ghost predicate Quiet(c: Config, call: Call, entry: int, trace: seq<Event>, approved: set<Question>) {
    && Lawful(c, call, entry, trace) && Runs(trace) == 0
    && Approved(trace) == approved
    && (trace != [] ==> !Stops(trace[|trace| - 1]))
  }

  /** The sandbox question that has been approved before anything else. */
  ghost function Overridden(call: Call): set<Question> {
    if call.requests.Requests? then {} else {SandboxRequests}
  }

  /** What has been approved when a cleared call comes to its first run. */
  ghost function ApprovedBefore(c: Config, call: Call): set<Question> {
    Overridden(call) + ApprovedAgreement(c, call) + if NeedsTerminal(c, call) then {TerminalOpen} else {}
  }

  ghost function ApprovedAgreement(c: Config, call: Call): set<Question> {
    if AsksForPreview(c, call) then {Preview} else if !call.policyAllows then {Permission} else {}
  }

  /** The trace up to and including each part. */
  ghost function UpToPreview(c: Config, call: Call, depth: int): seq<Event> {
    RequestEvents(c, call) + PreviewEvents(c, call, depth)
  }

  ghost function UpToAgreement(c: Config, call: Call, depth: int): seq<Event> {
    UpToPreview(c, call, depth) + AgreementEvents(c, call)
  }

  ghost function UpToTerminal(c: Config, call: Call, depth: int): seq<Event> {
    UpToAgreement(c, call, depth) + TerminalEvents(c, call)
  }

  ghost function DepthOf(call: Call, entry: int): int {
    if call.requests.Requests? then entry else entry + 1
  }

  lemma RequestsAreLawful(c: Config, call: Call, entry: int)
    ensures Lawful(c, call, entry, RequestEvents(c, call)) && Runs(RequestEvents(c, call)) == 0
    ensures Proceeds(c, call) ==> Quiet(c, call, entry, RequestEvents(c, call), Overridden(call))
  {
    if call.known && AsksForRequests(c, call) {
      var e := Asked(SandboxRequests, call.answers(SandboxRequests));
      assert Allowed(c, call, entry, [], e);
      Append(c, call, entry, [], e);
      assert [] + [e] == [e];
    }
  }

  /** The question of an event that is a yes. */
  ghost function YesOf(more: seq<Event>): set<Question> {
    if more != [] && more[0].Asked? && more[0].answer == Yes then {more[0].question} else {}
  }

  /** A quiet trace with at most one more event. */
  lemma QuietMore(c: Config, call: Call, entry: int, trace: seq<Event>, approved: set<Question>, more: seq<Event>)
    requires Quiet(c, call, entry, trace, approved) && |more| <= 1
    requires more != [] ==> !more[0].Ran? && Allowed(c, call, entry, trace, more[0])
    ensures Lawful(c, call, entry, trace + more) && Runs(trace + more) == 0
    ensures more == [] || !Stops(more[0]) ==> Quiet(c, call, entry, trace + more, approved + YesOf(more))
  {
    if more == [] {
      assert trace + more == trace;
    } else {
      assert more == [more[0]];
      Append(c, call, entry, trace, more[0]);
    }
  }

  lemma PreviewIsLawful(c: Config, call: Call, entry: int)
    requires Proceeds(c, call)
    ensures Quiet(c, call, entry, UpToPreview(c, call, DepthOf(call, entry)), Overridden(call))
  {
    RequestsAreLawful(c, call, entry);
    QuietMore(c, call, entry, RequestEvents(c, call), Overridden(call), PreviewEvents(c, call, DepthOf(call, entry)));
  }

  lemma AgreementAfter(c: Config, call: Call, entry: int, before: seq<Event>)
    requires Proceeds(c, call) && !PreviewBlocks(c, call) && Quiet(c, call, entry, before, Overridden(call))
    ensures var trace := before + AgreementEvents(c, call);
            && Lawful(c, call, entry, trace) && Runs(trace) == 0
            && (Agreed(c, call) ==> Quiet(c, call, entry, trace, Overridden(call) + ApprovedAgreement(c, call)))
  {
    QuietMore(c, call, entry, before, Overridden(call), AgreementEvents(c, call));
  }

  lemma TerminalAfter(c: Config, call: Call, entry: int, before: seq<Event>)
    requires Proceeds(c, call) && !PreviewBlocks(c, call) && Agreed(c, call)
    requires Quiet(c, call, entry, before, Overridden(call) + ApprovedAgreement(c, call))
    ensures var trace := before + TerminalEvents(c, call);
            && Lawful(c, call, entry, trace) && Runs(trace) == 0
            && (Cleared(c, call) ==> Quiet(c, call, entry, trace, ApprovedBefore(c, call)))
  {
    QuietMore(c, call, entry, before, Overridden(call) + ApprovedAgreement(c, call), TerminalEvents(c, call));
  }

  lemma AgreementIsLawful(c: Config, call: Call, entry: int)
    requires Proceeds(c, call) && !PreviewBlocks(c, call)
    ensures var trace := UpToAgreement(c, call, DepthOf(call, entry));
            && Lawful(c, call, entry, trace) && Runs(trace) == 0
            && (Agreed(c, call) ==> Quiet(c, call, entry, trace, Overridden(call) + ApprovedAgreement(c, call)))
  {
    PreviewIsLawful(c, call, entry);
    AgreementAfter(c, call, entry, UpToPreview(c, call, DepthOf(call, entry)));
  }

  lemma TerminalIsLawful(c: Config, call: Call, entry: int)
    requires Proceeds(c, call) && !PreviewBlocks(c, call) && Agreed(c, call)
    ensures var trace := UpToTerminal(c, call, DepthOf(call, entry));
            && Lawful(c, call, entry, trace) && Runs(trace) == 0
            && (Cleared(c, call) ==> Quiet(c, call, entry, trace, ApprovedBefore(c, call)))
  {
    AgreementIsLawful(c, call, entry);
    TerminalAfter(c, call, entry, UpToAgreement(c, call, DepthOf(call, entry)));
  }

  /** The run, the question after a denial and the second run, after any trace that cleared the call. */
  lemma FirstRunAfter(c: Config, call: Call, entry: int, before: seq<Event>)
    requires Cleared(c, call) && Quiet(c, call, entry, before, ApprovedBefore(c, call))
    ensures var trace := before + [Ran(DepthOf(call, entry), call.first)];
            Lawful(c, call, entry, trace) && Runs(trace) == 1 && Approved(trace) == ApprovedBefore(c, call)
  {
    Append(c, call, entry, before, Ran(DepthOf(call, entry), call.first));
  }

  lemma DenialAfter(c: Config, call: Call, entry: int, before: seq<Event>)
    requires Cleared(c, call) && AsksAfterDenial(c, call)
    requires Lawful(c, call, entry, before) && Runs(before) == 1 && Approved(before) == ApprovedBefore(c, call)
    requires before != [] && before[|before| - 1] == Ran(entry, call.first)
    ensures var trace := before + [Asked(SandboxResult, call.answers(SandboxResult))];
            && Lawful(c, call, entry, trace) && Runs(trace) == 1
            && Approved(trace) ==
                 ApprovedBefore(c, call) + if call.answers(SandboxResult) == Yes then {SandboxResult} else {}
  {
    Append(c, call, entry, before, Asked(SandboxResult, call.answers(SandboxResult)));
  }

  lemma SecondRunAfter(c: Config, call: Call, entry: int, before: seq<Event>)
    requires Cleared(c, call) && AsksAfterDenial(c, call)
    requires Lawful(c, call, entry, before) && Runs(before) == 1
    requires Approved(before) == ApprovedBefore(c, call) + {SandboxResult}
    requires before != [] && before[|before| - 1] == Asked(SandboxResult, Yes)
    ensures var trace := before + [Ran(entry + 1, call.second)];
            && Lawful(c, call, entry, trace) && Runs(trace) == 2 && Approved(trace) == Approved(before)
  {
    Append(c, call, entry, before, Ran(entry + 1, call.second));
  }

  lemma ConcatAll<T>(a: seq<T>, p: seq<T>, g: seq<T>, t: seq<T>, r: seq<T>)
    ensures a + (p + [] + []) == a + p
    ensures a + (p + (g + []) + []) == a + p + g
    ensures a + (p + (g + t) + r) == a + p + g + t + r
    ensures r == [] ==> a + (p + (g + t) + r) == a + p + g + t
  {
  }

  /** The whole trace, by how far it gets. */
  lemma TraceIs(c: Config, call: Call, entry: int)
    ensures var trace, depth := Trace(c, call, entry), DepthOf(call, entry);
            trace == if !Proceeds(c, call) then RequestEvents(c, call)
                     else if PreviewBlocks(c, call) then UpToPreview(c, call, depth)
                     else if !Agreed(c, call) then UpToAgreement(c, call, depth)
                     else if !Cleared(c, call) then UpToTerminal(c, call, depth)
                     else UpToTerminal(c, call, depth) + RunEvents(c, call, depth)
  {
    var depth := DepthOf(call, entry);
    ConcatAll(RequestEvents(c, call), PreviewEvents(c, call, depth), AgreementEvents(c, call),
              TerminalEvents(c, call), if Cleared(c, call) then RunEvents(c, call, depth) else []);
  }

  /** Every trace keeps the rules; the tool runs twice exactly if it is denied and that is approved. */
  lemma TraceIsLawful(c: Config, call: Call, entry: int)
    ensures var trace := Trace(c, call, entry);
            && Lawful(c, call, entry, trace)
            && Runs(trace) == (if !Cleared(c, call) then 0
                               else if AsksAfterDenial(c, call) && call.answers(SandboxResult) == Yes then 2 else 1)
            && (Cleared(c, call) ==>
                  Approved(trace) == ApprovedBefore(c, call) +
                    if AsksAfterDenial(c, call) && call.answers(SandboxResult) == Yes then {SandboxResult} else {})
  {
    TraceIs(c, call, entry);
    if !Proceeds(c, call) {
      RequestsAreLawful(c, call, entry);
    } else if PreviewBlocks(c, call) {
      PreviewIsLawful(c, call, entry);
    } else if !Agreed(c, call) {
      AgreementIsLawful(c, call, entry);
    } else if !Cleared(c, call) {
      TerminalIsLawful(c, call, entry);
    } else {
      ClearedIsLawful(c, call, entry);
    }
  }

  lemma ClearedIsLawful(c: Config, call: Call, entry: int)
    requires Cleared(c, call)
    ensures var depth := DepthOf(call, entry);
            var trace, twice := UpToTerminal(c, call, depth) + RunEvents(c, call, depth),
                AsksAfterDenial(c, call) && call.answers(SandboxResult) == Yes;
            && Lawful(c, call, entry, trace) && Runs(trace) == (if twice then 2 else 1)
            && Approved(trace) == ApprovedBefore(c, call) + if twice then {SandboxResult} else {}
  {
    TerminalIsLawful(c, call, entry);
    RunsAfter(c, call, entry, UpToTerminal(c, call, DepthOf(call, entry)));
  }

  lemma RunsAfter(c: Config, call: Call, entry: int, before: seq<Event>)
    requires Cleared(c, call) && Quiet(c, call, entry, before, ApprovedBefore(c, call))
    ensures var trace, twice := before + RunEvents(c, call, DepthOf(call, entry)),
                AsksAfterDenial(c, call) && call.answers(SandboxResult) == Yes;
            && Lawful(c, call, entry, trace) && Runs(trace) == (if twice then 2 else 1)
            && Approved(trace) == ApprovedBefore(c, call) + if twice then {SandboxResult} else {}
  {
    var ran := before + [Ran(DepthOf(call, entry), call.first)];
    FirstRunAfter(c, call, entry, before);
    if AsksAfterDenial(c, call) {
      var asked := ran + [Asked(SandboxResult, call.answers(SandboxResult))];
      DenialAfter(c, call, entry, ran);
      if call.answers(SandboxResult) == Yes {
        SecondRunAfter(c, call, entry, asked);
        assert before + RunEvents(c, call, entry) == asked + [Ran(entry + 1, call.second)];
      } else {
        assert before + RunEvents(c, call, entry) == asked;
      }
    }
  }

  // ---- The end fits the trace

  /** What a returned result claims is what the trace shows. */
  ghost predicate HonestResult(call: Call, outcome: Outcome, trace: seq<Event>)
    requires outcome.Returned?
  {
    && outcome.result == (if Runs(trace) == 2 then call.second else call.first)
    && (outcome.meta.sandboxOverride <==> SandboxApproved(trace))
    && (outcome.meta.permissionOverride <==> !call.policyAllows)
    && (outcome.meta.previewApproved <==> Preview in Approved(trace))
    && (outcome.meta.terminalOpenApproved <==> TerminalOpen in Approved(trace))
    && outcome.meta.approvedByUser ==
         if Approved(trace) != {} then Some(true)
         else if trace != [] && trace[|trace| - 1] == Asked(SandboxResult, No) then Some(false) else None
  }

  /** How a call ends whose last event was a refusal, an exception or a timeout.  The first question is asked
      outside the `try` that turns a timeout into a result. */
  function EndsAs(last: Event): Outcome
    requires Stops(last)
  {
    match last
    case Asked(q, answer) =>
      if answer == No then (if q == SandboxRequests then HarnessErrorResult(Some(false)) else PermissionDenied)
      else if answer == HandlerTimesOut && q != SandboxRequests then TimedOut
      else Raised
    case Ran(_, run) => if run.RunTimesOut? then TimedOut else Raised
    case _ => Raised
  }

  /** A call whose last event was a refusal, an exception or a timeout ends as that calls for; only a refused
      second run leaves the first result. */
  predicate EndsByLastEvent(trace: seq<Event>, outcome: Outcome) {
    trace != [] && Stops(trace[|trace| - 1]) && trace[|trace| - 1] != Asked(SandboxResult, No) ==>
      outcome == EndsAs(trace[|trace| - 1])
  }

  lemma EndFitsTrace(c: Config, call: Call, entry: int)
    ensures EndsByLastEvent(Trace(c, call, entry), End(c, call))
  {
    if Cleared(c, call) {
      LastOfRuns(c, call, entry);
    } else {
      TraceIs(c, call, entry);
      if Proceeds(c, call) {
        PreviewIsLawful(c, call, entry);
        if !PreviewBlocks(c, call) { QuestionsEnd(c, call, UpToPreview(c, call, DepthOf(call, entry))); }
      }
    }
  }

  /** A cleared call ends with the events of its runs. */
  lemma LastOfRuns(c: Config, call: Call, entry: int)
    requires Cleared(c, call)
    ensures var trace, runs := Trace(c, call, entry), RunEvents(c, call, DepthOf(call, entry));
            trace != [] && trace[|trace| - 1] == runs[|runs| - 1]
  {
    TraceIs(c, call, entry);
  }

  /** A call that is not cleared by its questions. */
  lemma QuestionsEnd(c: Config, call: Call, before: seq<Event>)
    requires Proceeds(c, call) && !PreviewBlocks(c, call) && !Cleared(c, call)
    requires before != [] ==> !Stops(before[|before| - 1])
    ensures EndsByLastEvent(if Agreed(c, call) then before + AgreementEvents(c, call) + TerminalEvents(c, call)
                            else before + AgreementEvents(c, call), LaterEnd(c, call))
  {
    var agreement := before + AgreementEvents(c, call);
    if Agreed(c, call) {
      assert agreement != [] ==> !Stops(agreement[|agreement| - 1]);
      if TerminalEvents(c, call) == [] { assert agreement + TerminalEvents(c, call) == agreement; }
    }
  }

  /** The last thing that happened was a run that gave a result, or a refusal to repeat it. */
  ghost predicate LastsWithResult(trace: seq<Event>) {
    && trace != []
    && match trace[|trace| - 1]
       case Ran(_, run) => run.Result?
       case Asked(question, answer) => question == SandboxResult && answer == No
       case Previewed(_) => false
  }

  /** A result is returned exactly when the tool ran to one, and then it is honest. */
  lemma ReturnedIff(c: Config, call: Call, entry: int)
    ensures End(c, call).Returned? <==> LastsWithResult(Trace(c, call, entry))
    ensures End(c, call).Returned? ==> HonestResult(call, End(c, call), Trace(c, call, entry))
  {
    if Cleared(c, call) {
      ReturnedAfterRun(c, call, entry);
    } else {
      NoResult(c, call, entry);
    }
  }

  lemma NoResult(c: Config, call: Call, entry: int)
    requires !Cleared(c, call)
    ensures !End(c, call).Returned? && !LastsWithResult(Trace(c, call, entry))
  {
    var trace := Trace(c, call, entry);
    if trace != [] {
      InTrace(c, call, entry, trace[|trace| - 1]);
    }
  }

  lemma ReturnedAfterRun(c: Config, call: Call, entry: int)
    requires Cleared(c, call)
    ensures End(c, call).Returned? <==> LastsWithResult(Trace(c, call, entry))
    ensures End(c, call).Returned? ==> HonestResult(call, End(c, call), Trace(c, call, entry))
  {
    LastOfRuns(c, call, entry);
    TraceIsLawful(c, call, entry);
    RunEndIsHonest(c, call, Trace(c, call, entry), DepthOf(call, entry));
  }

  lemma RunEndIsHonest(c: Config, call: Call, trace: seq<Event>, depth: int)
    requires Cleared(c, call) && trace != []
    requires var runs := RunEvents(c, call, depth); trace[|trace| - 1] == runs[|runs| - 1]
    requires var twice := AsksAfterDenial(c, call) && call.answers(SandboxResult) == Yes;
             && Runs(trace) == (if twice then 2 else 1)
             && Approved(trace) == ApprovedBefore(c, call) + if twice then {SandboxResult} else {}
    ensures RunEnd(c, call).Returned? <==> LastsWithResult(trace)
    ensures RunEnd(c, call).Returned? ==> HonestResult(call, RunEnd(c, call), trace)
  {
  }

  /** And the ends that no question leads to. */
  lemma OtherEnds(c: Config, call: Call)
    ensures End(c, call) == UnknownTool <==> !call.known
    ensures End(c, call) == InvalidArguments <==> call.known && call.requests == InvalidRequest
    ensures End(c, call) == HarnessErrorResult(None) <==>
              call.known && call.requests.HarnessError? && RequestEvents(c, call) == []
    ensures End(c, call) == PreviewEnded <==>
              Proceeds(c, call) && call.preview == PreviewResult && (c.hasHandler || !c.allowUnguardedWrite)
    ensures call.known && ObtainsRequests(c, call) && !call.policyAllows && !c.hasHandler ==>
              End(c, call) == PermissionDenied
    ensures Proceeds(c, call) && !PreviewBlocks(c, call) && NeedsTerminal(c, call) && !c.hasHandler ==>
              End(c, call) == PermissionDenied
    ensures Proceeds(c, call) && PreviewBlocks(c, call) ==>
              (End(c, call) == TimedOut <==> call.preview == PreviewTimesOut) &&
              (End(c, call) == Raised <==> call.preview == PreviewRaises)
  {
  }
}
