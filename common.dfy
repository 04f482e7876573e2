/** Vocabulary shared by the task models: Java's nullable references, the
    executors a runnable can be handed to, opaque listener handles, the
    exceptions the library throws and the two calls of a work finisher. */
module Common {

  /** A Java reference that may be null: `None` stands for null. */
  datatype Option<T> = None | Some(value: T)

  /** Where a runnable goes. `CurrentThread` runs it before `execute` returns
      (TaskExecutors.CURRENT_THREAD_EXECUTOR); the main-thread handler and the
      single-thread background executors queue it to run later. */
  datatype Executor = CurrentThread | MainThread | Background(worker: nat)

  /** Listener and timeout-callback objects are user code: only their identity matters. */
  type ListenerId = nat
  type CallbackId = nat

  /** How a public method returns: normally, or by throwing the named exception. */
  datatype Outcome = Ok | IllegalState | IllegalArgument | NullPointer

  /** One call a task's work makes on the finisher it was handed. */
  datatype FinisherCall<R, E> = WithResult(result: R) | WithError(error: E)
}
