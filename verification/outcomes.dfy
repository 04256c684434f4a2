/**
 * How an agent operation ends, and the option type used throughout.
 *
 * The agents signal failure by raising one of the task exceptions of the
 * cluster framework; the dispatcher retries a `TaskError`, abandons a
 * `TaskFatalError`, and treats `TaskNotReady` as a precondition that has not
 * been met yet. Some operations instead return normally after recording a
 * comment on the task. Anything else that propagates out of an operation (an
 * uncaught hypervisor error, a Python runtime error) is `Raised`.
 */
module Outcomes {

  datatype Option<+T> = None | Some(value: T)

  datatype Outcome =
    | Done                        // the operation returned normally
    | TaskError(code: string)     // recoverable: eligible for retry
    | TaskFatal(code: string)     // TaskFatalError: not retried
    | TaskNotReady(code: string)  // the entities are not in a state that allows the operation yet
    | Aborted(comment: string)    // returned normally after writing `comment` on the task
    | Raised(what: string)        // an exception outside the task-error family propagated
}
