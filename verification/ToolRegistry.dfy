/** Execution of a tool call through permissions, previews and sandbox approvals (`ToolRegistry.execute`). */
module ToolRegistry {
  import opened Model
  import opened Approvals
  import opened ToolTrace

  class WorkContext {
    var approvalDepth: int

    constructor ()
      ensures approvalDepth == 0
    {
      approvalDepth := 0;
    }

    /** Run code that enters the override, nested and in sequence, and may raise anywhere: the `finally` of
        each block is passed on the way out, so the depth is as before. */
    method Execute(body: Body) returns (raised: bool)
      modifies this
      ensures approvalDepth == old(approvalDepth)
      ensures raised == Raises(body)
      decreases body
    {
      match body
      case Return => raised := false;
      case Raise => raised := true;
      case With(block, rest) =>
        approvalDepth := approvalDepth + 1;
        raised := Execute(block);
        approvalDepth := approvalDepth - 1;
        if raised { return; }
        raised := Execute(rest);
    }
  }

  class ToolRegistry {
    const config: Config

    constructor (config: Config)
      ensures this.config == config
    {
      this.config := config;
    }

    /** `execute`, with everything it did in `trace`: the rules are kept, the override depth is restored however
        the call ends, and the end fits the trace. */
    method Execute(call: Call, context: WorkContext) returns (outcome: Outcome, trace: seq<Event>)
      modifies context
      ensures context.approvalDepth == old(context.approvalDepth)
      ensures trace == Trace(config, call, old(context.approvalDepth)) && outcome == End(config, call)
      ensures Lawful(config, call, old(context.approvalDepth), trace)
      ensures EndsByLastEvent(trace, outcome)
      ensures outcome.Returned? ==> HonestResult(call, outcome, trace)
    {
      TraceIsLawful(config, call, context.approvalDepth);
      EndFitsTrace(config, call, context.approvalDepth);
      ReturnedIff(config, call, context.approvalDepth);
      if !call.known { return UnknownTool, []; }
      var requests: Option<bool>;
      requests, outcome, trace := PermissionRequests(call, context);
      if requests == None { return; }
      if !call.policyAllows && !config.hasHandler {
        return PermissionDenied, trace;
      }
      outcome, trace := ApproveAndRun(call, context, requests.value, trace);
    }

    /** `await self.approval_handler.approve(...)` */
    method Ask(call: Call, question: Question, before: seq<Event>) returns (answer: Answer, trace: seq<Event>)
      requires config.hasHandler
      ensures answer == call.answers(question) && trace == before + [Asked(question, answer)]
    {
      answer := call.answers(question);
      trace := before + [Asked(question, answer)];
    }

    /** `_permission_requests`: `Some(overridden)`, or else what `execute` ends with. */
    method PermissionRequests(call: Call, context: WorkContext)
      returns (got: Option<bool>, outcome: Outcome, trace: seq<Event>)
      requires call.known
      modifies context
      ensures context.approvalDepth == old(context.approvalDepth)
      ensures trace == RequestEvents(config, call)
      ensures got == if ObtainsRequests(config, call) then Some(!call.requests.Requests?) else None
      ensures got == None ==> outcome == WithoutRequests(config, call)
    {
      trace, outcome := [], Raised;
      match call.requests
      case Requests => got := Some(false);
      case InvalidRequest => got, outcome := None, InvalidArguments;
      case RequestsRaise => got := None;
      case HarnessError(sandbox, rootEscalation) =>
        got := None;
        if config.approveSandboxDenials && (config.approveRootEscalation || !rootEscalation) && config.hasHandler &&
           sandbox {
          got, outcome, trace := AskForRequests(call, context);
        } else {
          outcome := HarnessErrorResult(None);
        }
    }

    /** The sandbox denied the requests: ask, and compute them again with the override. */
    method AskForRequests(call: Call, context: WorkContext)
      returns (got: Option<bool>, outcome: Outcome, trace: seq<Event>)
      requires call.known && AsksForRequests(config, call)
      modifies context
      ensures context.approvalDepth == old(context.approvalDepth)
      ensures trace == RequestEvents(config, call)
      ensures got == if ObtainsRequests(config, call) then Some(true) else None
      ensures got == None ==> outcome == WithoutRequests(config, call)
    {
      var answer;
      answer, trace := Ask(call, SandboxRequests, []);
      got, outcome := None, Raised;
      if answer == Yes {
        var _ := context.Execute(With(call.body, Return));
        if call.requestsApproved.Requests? { got := Some(true); }
      } else if answer == No {
        outcome := HarnessErrorResult(Some(false));
      }
    }

    /** `execute` from the preview on. */
    method ApproveAndRun(call: Call, context: WorkContext, overridden: bool, before: seq<Event>)
      returns (outcome: Outcome, trace: seq<Event>)
      requires Proceeds(config, call) && overridden == !call.requests.Requests?
      modifies context
      ensures context.approvalDepth == old(context.approvalDepth)
      ensures var depth := if overridden then context.approvalDepth + 1 else context.approvalDepth;
              trace == before + LaterEvents(config, call, depth)
      ensures outcome == LaterEnd(config, call)
    {
      ghost var depth := if overridden then context.approvalDepth + 1 else context.approvalDepth;
      var cleared, previewApproved;
      cleared, previewApproved, outcome, trace := Approve(call, context, overridden, before);
      Concat(before, ApprovalEvents(config, call, depth), if cleared then RunEvents(config, call, depth) else []);
      if !cleared { return; }
      outcome, trace := RunApproved(call, context, overridden, previewApproved, trace);
    }

    /** The preview, and the questions between it and the run. */
    method Approve(call: Call, context: WorkContext, overridden: bool, before: seq<Event>)
      returns (cleared: bool, previewApproved: bool, outcome: Outcome, trace: seq<Event>)
      requires Proceeds(config, call) && overridden == !call.requests.Requests?
      modifies context
      ensures context.approvalDepth == old(context.approvalDepth)
      ensures var depth := if overridden then context.approvalDepth + 1 else context.approvalDepth;
              trace == before + ApprovalEvents(config, call, depth)
      ensures cleared == Cleared(config, call) && (cleared ==> previewApproved == AsksForPreview(config, call))
      ensures !cleared ==> outcome == LaterEnd(config, call)
    {
      ghost var depth := if overridden then context.approvalDepth + 1 else context.approvalDepth;
      cleared, previewApproved := false, false;
      var shown;
      shown, outcome, trace := ApprovalPreview(call, context, overridden, before);
      Concat(before, PreviewEvents(config, call, depth), if shown then QuestionEvents(config, call) else []);
      if !shown { return; }
      cleared, previewApproved, outcome, trace := AskAll(call, trace);
    }

    /** `_approval_preview`, when there is a reason to preview. */
    method ApprovalPreview(call: Call, context: WorkContext, overridden: bool, before: seq<Event>)
      returns (shown: bool, outcome: Outcome, trace: seq<Event>)
      modifies context
      ensures context.approvalDepth == old(context.approvalDepth)
      ensures var depth := if overridden then context.approvalDepth + 1 else context.approvalDepth;
              trace == before + PreviewEvents(config, call, depth)
      ensures shown == !PreviewBlocks(config, call)
      ensures !shown ==> outcome == PreviewFailure(call)
    {
      if (!config.hasHandler && config.allowUnguardedWrite) || call.preview == NoPreview {
        return true, Raised, before;
      }
      if overridden { context.approvalDepth := context.approvalDepth + 1; }
      trace := before + [Previewed(context.approvalDepth)];
      var _ := context.Execute(call.body);
      if overridden { context.approvalDepth := context.approvalDepth - 1; }
      shown, outcome := call.preview == Shown, PreviewFailure(call);
    }

    /** All questions after the preview. */
    method AskAll(call: Call, before: seq<Event>)
      returns (cleared: bool, previewApproved: bool, outcome: Outcome, trace: seq<Event>)
      requires Proceeds(config, call) && !PreviewBlocks(config, call)
      ensures trace == before + QuestionEvents(config, call)
      ensures cleared == Cleared(config, call) && (cleared ==> previewApproved == AsksForPreview(config, call))
      ensures !cleared ==> outcome == LaterEnd(config, call)
    {
      var permitted;
      permitted, previewApproved, outcome, trace := AskPermission(call, before);
      Concat(before, AgreementEvents(config, call), if permitted then TerminalEvents(config, call) else []);
      if !permitted { return false, false, outcome, trace; }
      cleared, outcome, trace := AskTerminal(call, trace);
    }

    /** Ask about the preview, or, if that does not settle a permission that is missing, about the permission. */
    method AskPermission(call: Call, before: seq<Event>)
      returns (permitted: bool, previewApproved: bool, outcome: Outcome, trace: seq<Event>)
      requires call.policyAllows || config.hasHandler
      ensures trace == before + AgreementEvents(config, call)
      ensures permitted == Agreed(config, call) && (permitted ==> previewApproved == AsksForPreview(config, call))
      ensures !permitted ==>
                outcome == Refused(call.answers(if AsksForPreview(config, call) then Preview else Permission))
    {
      permitted, previewApproved, outcome, trace := false, false, Raised, before;
      var answer;
      if call.preview == Shown && config.hasHandler {
        answer, trace := Ask(call, Preview, trace);
        if answer != Yes { outcome := Refused(answer); return; }
        previewApproved := true;
      }
      if !call.policyAllows && !previewApproved {
        answer, trace := Ask(call, Permission, trace);
        if answer != Yes { outcome := Refused(answer); return; }
      }
      permitted := true;
    }

    /** The question before a terminal is opened. */
    method AskTerminal(call: Call, before: seq<Event>) returns (permitted: bool, outcome: Outcome, trace: seq<Event>)
      ensures trace == before + TerminalEvents(config, call)
      ensures permitted <==> (NeedsTerminal(config, call) ==> config.hasHandler && call.answers(TerminalOpen) == Yes)
      ensures !permitted ==> outcome == TerminalEnd(config, call)
    {
      permitted, outcome, trace := true, Raised, before;
      if config.approveTerminalOpen && call.opensTerminal {
        if !config.hasHandler { return false, PermissionDenied, before; }
        var answer;
        answer, trace := Ask(call, TerminalOpen, before);
        if answer != Yes { return false, Refused(answer), trace; }
      }
    }

    /** `_execute_tool`. */
    method ExecuteTool(call: Call, context: WorkContext, run: RunOutcome, overridden: bool, before: seq<Event>)
      returns (trace: seq<Event>)
      modifies context
      ensures context.approvalDepth == old(context.approvalDepth)
      ensures trace == before + [Ran(if overridden then context.approvalDepth + 1 else context.approvalDepth, run)]
    {
      if overridden { context.approvalDepth := context.approvalDepth + 1; }
      trace := before + [Ran(context.approvalDepth, run)];
      var _ := context.Execute(call.body);
      if overridden { context.approvalDepth := context.approvalDepth - 1; }
    }

    /** The run, and after a sandbox denial perhaps another one. */
    method RunApproved(call: Call, context: WorkContext, overridden: bool, previewApproved: bool, before: seq<Event>)
      returns (outcome: Outcome, trace: seq<Event>)
      requires Cleared(config, call) && overridden == !call.requests.Requests?
      requires previewApproved == AsksForPreview(config, call)
      modifies context
      ensures context.approvalDepth == old(context.approvalDepth)
      ensures var depth := if overridden then context.approvalDepth + 1 else context.approvalDepth;
              trace == before + RunEvents(config, call, depth)
      ensures outcome == RunEnd(config, call)
    {
      trace := ExecuteTool(call, context, call.first, overridden, before);
      if !call.first.Result? {
        return Failure(call.first), trace;
      }
      var terminalOpen := config.approveTerminalOpen && call.opensTerminal;
      var meta := Meta(!call.policyAllows, overridden, terminalOpen, previewApproved, None);
      if call.first.denied && config.approveSandboxDenials &&
         (config.approveRootEscalation || !call.first.rootEscalation) && config.hasHandler && !overridden {
        outcome, trace := AfterDenial(call, context, meta, trace);
        Concat(before, [Ran(context.approvalDepth, call.first)], DenialEvents(call, context.approvalDepth));
      } else {
        outcome := Returned(call.first, Annotated(meta, false));
      }
    }

    ghost function DenialEvents(call: Call, depth: int): seq<Event> {
      if call.answers(SandboxResult) != Yes then [Asked(SandboxResult, call.answers(SandboxResult))]
      else [Asked(SandboxResult, Yes), Ran(depth + 1, call.second)]
    }

    /** The run was denied by the sandbox: ask, and run again with the override. */
    method AfterDenial(call: Call, context: WorkContext, meta: Meta, before: seq<Event>)
      returns (outcome: Outcome, trace: seq<Event>)
      requires config.hasHandler
      modifies context
      ensures context.approvalDepth == old(context.approvalDepth)
      ensures trace == before + DenialEvents(call, context.approvalDepth)
      ensures var answer := call.answers(SandboxResult);
              outcome == if answer == No then Returned(call.first, Annotated(meta, true))
                         else if answer != Yes then Refused(answer) else SecondEnd(call, meta)
    {
      var answer;
      answer, trace := Ask(call, SandboxResult, before);
      if answer == No {
        return Returned(call.first, Annotated(meta, true)), trace;
      }
      if answer != Yes {
        return Refused(answer), trace;
      }
      trace := ExecuteTool(call, context, call.second, true, trace);
      if !call.second.Result? {
        return Failure(call.second), trace;
      }
      outcome := Returned(call.second, Annotated(meta.(sandboxOverride := true), false));
    }
  }
}
