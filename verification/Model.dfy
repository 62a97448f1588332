/** Values shared by several components. */
module Model {

  datatype Option<+T> = None | Some(value: T)

  /** `TaskState` of the runtime; the values are the ones stored in the task table. */
  datatype TaskState = CREATED | PREPARING | RUNNING | SUCCEEDED | FAILED | CANCELLING | CANCELLED | LOST

  /** `_is_terminal_task`: the states after which a task no longer changes by itself. */
  predicate TerminalState(s: TaskState) {
    s == SUCCEEDED || s == FAILED || s == CANCELLED || s == LOST
  }

  /** `_TASK_RECOVERABLE_STATES`: the states that imply a live in-memory handle. */
  predicate RecoverableState(s: TaskState) {
    s == PREPARING || s == RUNNING || s == CANCELLING
  }

  /** SHA-256 taken as injective: the digest of a text is the text, wrapped. */
  datatype Digest = Sha256(text: string)

  function Min(a: int, b: int): int {
    if a < b then a else b
  }

  function Max(a: int, b: int): int {
    if a > b then a else b
  }
}
