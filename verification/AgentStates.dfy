/** The states of the agent loop and the transitions its machine permits. */
module AgentStates {

  datatype AgentState =
    | CREATED | INITIALIZING | READY | PLANNING | WAITING_FOR_MODEL | TOOL_SELECTED | EXECUTING_TOOL
    | OBSERVING_TASK | PROCESSING_RESULT | COMPLETED | FAILED | CANCELLED

  /** `LEGAL_TRANSITIONS`. */
  function LegalTransitions(s: AgentState): set<AgentState> {
    match s
    case CREATED => {INITIALIZING, FAILED, CANCELLED}
    case INITIALIZING => {READY, FAILED, CANCELLED}
    case READY => {PLANNING, FAILED, CANCELLED}
    case PLANNING => {WAITING_FOR_MODEL, FAILED, CANCELLED}
    case WAITING_FOR_MODEL => {TOOL_SELECTED, PROCESSING_RESULT, FAILED, CANCELLED}
    case TOOL_SELECTED => {EXECUTING_TOOL, FAILED, CANCELLED}
    case EXECUTING_TOOL => {OBSERVING_TASK, PROCESSING_RESULT, FAILED, CANCELLED}
    case OBSERVING_TASK => {PROCESSING_RESULT, FAILED, CANCELLED}
    case PROCESSING_RESULT => {PLANNING, COMPLETED, FAILED, CANCELLED}
    case COMPLETED => {}
    case FAILED => {}
    case CANCELLED => {}
  }

  predicate Terminal(s: AgentState) {
    s in {COMPLETED, FAILED, CANCELLED}
  }

  /** The table: only terminal states have no way out, and from every other one the run can be failed or
      cancelled. */
  lemma TerminalIff(s: AgentState)
    ensures s in {COMPLETED, FAILED, CANCELLED} <==> LegalTransitions(s) == {}
    ensures Terminal(s) <==> s in {COMPLETED, FAILED, CANCELLED}
    ensures !Terminal(s) ==> FAILED in LegalTransitions(s) && CANCELLED in LegalTransitions(s)
  {
    if !Terminal(s) { assert FAILED in LegalTransitions(s); }
  }

  /** The states of a run: each follows the one before by a legal transition. */
  ghost predicate LegalRun(path: seq<AgentState>) {
    path != [] && path[0] == CREATED && forall i :: 0 < i < |path| ==> path[i] in LegalTransitions(path[i - 1])
  }

  /** In every legal run a tool is executed only right after the model was asked and chose one, and a task is
      observed only right after a tool; the model is asked only right after planning; the run completes only
      right after a result was processed; initialisation comes once, at the start; and nothing follows a
      terminal state. */
  lemma RunsAreOrderly(path: seq<AgentState>, i: nat)
    requires LegalRun(path) && i < |path|
    ensures path[i] == CREATED <==> i == 0
    ensures path[i] == INITIALIZING ==> i == 1
    ensures path[i] == READY ==> i == 2
    ensures path[i] == PLANNING ==> i >= 3 && path[i - 1] in {READY, PROCESSING_RESULT}
    ensures path[i] == WAITING_FOR_MODEL ==> i >= 4 && path[i - 1] == PLANNING
    ensures path[i] == TOOL_SELECTED ==> i >= 5 && path[i - 1] == WAITING_FOR_MODEL
    ensures path[i] == EXECUTING_TOOL ==>
              i >= 6 && path[i - 1] == TOOL_SELECTED && path[i - 2] == WAITING_FOR_MODEL
    ensures path[i] == OBSERVING_TASK ==> i >= 7 && path[i - 1] == EXECUTING_TOOL
    ensures path[i] == PROCESSING_RESULT ==>
              i >= 5 && path[i - 1] in {WAITING_FOR_MODEL, EXECUTING_TOOL, OBSERVING_TASK}
    ensures path[i] == COMPLETED ==> i >= 6 && path[i - 1] == PROCESSING_RESULT
    ensures Terminal(path[i]) ==> i == |path| - 1
    decreases i
  {
    if i > 0 {
      RunsAreOrderly(path, i - 1);
      assert path[i] in LegalTransitions(path[i - 1]);
      if i > 1 { assert path[i - 1] in LegalTransitions(path[i - 2]); }
    }
    if i + 1 < |path| { assert path[i + 1] in LegalTransitions(path[i]); }
  }

  class StateMachine {
    var state: AgentState

    constructor ()
      ensures state == CREATED
    {
      state := CREATED;
    }

    /** `legal` is false when the source raises. */
    method Transition(newState: AgentState) returns (legal: bool)
      modifies this
      ensures legal <==> newState in LegalTransitions(old(state))
      ensures state == if legal then newState else old(state)
    {
      legal := newState in LegalTransitions(state);
      if legal { state := newState; }
    }
  }
}
