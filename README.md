# android-tasks in Dafny

This project models the task core of the android-tasks library (package
`com.jacosro.tasks`) and proves properties of it. The core is:

- **ExecutableTask** — a single-result task. Its work runs on an executor and
  ends through a work finisher (`withResult` / `withError`). Its state rises
  through INIT < RUNNING < TIMEOUT < SUCCESS < ERROR < CANCELLED and never goes
  back down. Result and error listeners are queued, each paired with its
  executor, and are handed out once by `doOnFinish`. A timeout is a second
  task that sleeps and then forces TIMEOUT.
- **Tasks** — the static factories (`forResult`, `forError`, `run`,
  `runAsync`, `runOnMainThread`, `runOnExecutor`) and the joins
  `whenAll` / `whenAllSuccess`.
- **BaseTask** — the older task class. Its state is an AtomicInteger that each
  set overwrites (INIT, RUNNING, CANCELLED, FINISHED). Listeners are drained
  by a runnable posted to the main-thread Handler.

Executors are a datatype: `CurrentThread | MainThread | Background(worker)`.
The current-thread executor runs a runnable at once (TaskExecutors.java,
lines 12-17). Any other executor keeps the runnable for later. A listener
runnable handed to an executor is recorded in a log (`calls` / `delivered`).
A task's work is the sequence of finisher calls it makes.

Each task class is modelled twice:

- as a pure datatype with one function per Java method (`TaskModel`,
  `BaseTaskModel`);
- as a Dafny `class` whose fields are the Java fields (`ExecutableTasks`,
  `BaseTasks`). Each method of the class ensures that the new fields are the
  matching function of the old ones. The listener drains are `while` loops
  that poll the queue.

Whole runs are folds of an event sequence (`TaskRuns`, `BaseTaskRuns`). An
event is a call from the user, the work, an executor, a timeout watcher or the
main looper. The joins are folds over the sequence of listener invocations of
the supplied tasks (`Joins`), plus two small classes for the state those
listeners share (`Tasks.WhenAllJoin`, `Tasks.WhenAllSuccessJoin`).

Three points where the code does not do what its own comments and structure
suggest; the model follows the code, and each is a finding below:

- the comment at ExecutableTask.java:234 says that a finished task ignores
  later results and errors, but setResult and setError (ExecutableTask.java:308-324)
  call setState before doOnFinish, and setState (364-370) has no finished
  guard, so a late completion still raises the state;
- cancel (ExecutableTask.java:189-195) calls setState(CANCELLED) without
  checking isFinished, so cancelling a successful task makes it CANCELLED and
  then throws on the queues nullObjects has already dropped;
- setTimeout (ExecutableTask.java:168-186) cancels the previous watcher task,
  but that does not end the watcher's sleep, after which it sets TIMEOUT.

## Model

| member | source | states |
|---|---|---|
| TaskState.Raise | tasks/src/main/java/com/jacosro/tasks/ExecutableTask.java:364-370 | the new state is the higher-numbered of the current and the requested one; the state never goes down |
| TaskState.RaiseAllIsHighest | tasks/src/main/java/com/jacosro/tasks/ExecutableTask.java:364-370 | after any sequence of setState calls, the state is the highest state requested (or the starting state, if it is higher) |
| TaskState.RaiseAllOrderIndependent | tasks/src/main/java/com/jacosro/tasks/ExecutableTask.java:364-370 | two interleavings of the same setState requests end in the same state |
| TaskIds.AssignId | tasks/src/main/java/com/jacosro/tasks/ExecutableTask.java:90-93 | the id is in [0, MAX_VALUE); it is the counter below MAX_VALUE and 0 at MAX_VALUE (the reset); the new counter is id + 1 |
| TaskIds.IdsWrap | tasks/src/main/java/com/jacosro/tasks/ExecutableTask.java:47-47 | the k-th task created gets id k mod MAX_VALUE |
| TaskIds.IdsRepeatAfterWrap | tasks/src/main/java/com/jacosro/tasks/ExecutableTask.java:383-393 | tasks created MAX_VALUE creations apart get the same id, so `equals` reports them equal |
| TaskIds.IdCounter.Assign | tasks/src/main/java/com/jacosro/tasks/ExecutableTask.java:90-93 | updates the shared counter exactly as AssignId does and keeps it in range |
| TaskModel.Initial | tasks/src/main/java/com/jacosro/tasks/ExecutableTask.java:81-88 | a new task is valid and unfinished, is in INIT and has handed out nothing |
| TaskModel.ResultCalls | tasks/src/main/java/com/jacosro/tasks/ExecutableTask.java:239-249 | one runnable per queued result listener, in queue order, each on its own executor, each with the result |
| TaskModel.ErrorCalls | tasks/src/main/java/com/jacosro/tasks/ExecutableTask.java:250-260 | the same for the error listeners, with the error |
| TaskModel.Requested | tasks/src/main/java/com/jacosro/tasks/ExecutableTask.java:308-324 | each finisher call requests SUCCESS (withResult) or ERROR (withError) |
| TaskModel.FinishRaisesToHighest | tasks/src/main/java/com/jacosro/tasks/ExecutableTask.java:69-79 | after any sequence of finisher calls, the state is the highest one requested; the task is finished iff it was already finished or some call was made |
| TaskModel.DoOnFinishOnce | tasks/src/main/java/com/jacosro/tasks/ExecutableTask.java:232-237 | doOnFinish does nothing to a finished task, always leaves the task finished, and is idempotent |
| TaskModel.DispatchOnSuccess | tasks/src/main/java/com/jacosro/tasks/ExecutableTask.java:239-249 | on SUCCESS, doOnFinish hands every queued result listener, in order, to its executor with the result, and nothing else |
| TaskModel.DispatchOnOtherStates | tasks/src/main/java/com/jacosro/tasks/ExecutableTask.java:250-272 | on ERROR it hands out exactly the error listeners; on TIMEOUT it hands out only the timeout callback |
| TaskModel.LateResultListener | tasks/src/main/java/com/jacosro/tasks/ExecutableTask.java:101-123 | before finish, the listener is queued; after finish, it is handed out at once iff the task succeeded |
| TaskModel.LateErrorListener | tasks/src/main/java/com/jacosro/tasks/ExecutableTask.java:131-153 | the same for error listeners and ERROR |
| TaskModel.CancelIsSilent | tasks/src/main/java/com/jacosro/tasks/ExecutableTask.java:189-195 | cancel leaves the task CANCELLED and finished, hands out no listener, and succeeds iff the task was unfinished (otherwise it throws NullPointerException) |
| TaskModel.ExecuteRule | tasks/src/main/java/com/jacosro/tasks/ExecutableTask.java:202-223 | execute throws IllegalStateException on a finished task and changes nothing; otherwise it sets RUNNING and runs the work now on the current thread, or queues it |
| TaskModel.SetTimeoutRule | tasks/src/main/java/com/jacosro/tasks/ExecutableTask.java:160-187 | a negative delay throws IllegalArgumentException and changes nothing; cancelling an already finished previous watcher task throws NullPointerException and changes nothing, and otherwise the call succeeds; on success the new callback, executor and watcher become the live ones while state, finished flag and handed-out runnables are unchanged; on a valid unfinished task a non-negative delay always succeeds |
| TaskModel.TimeoutFinishes | tasks/src/main/java/com/jacosro/tasks/ExecutableTask.java:175-186 | an elapsed watcher ends an INIT or RUNNING task in TIMEOUT and hands out only the timeout callback |
| TaskModel.LateCompletion | tasks/src/main/java/com/jacosro/tasks/ExecutableTask.java:308-324 | on a finished task, setResult / setError only overwrite the value and raise the state |
| TaskModel.DoOnFinishValid | tasks/src/main/java/com/jacosro/tasks/ExecutableTask.java:232-276 | doOnFinish keeps the task invariant (finished iff queues, work executor and finisher are nulled; an unfinished task's live watcher has not fired) |
| TaskModel.SetResultValid | tasks/src/main/java/com/jacosro/tasks/ExecutableTask.java:308-312 | setResult keeps the invariant |
| TaskModel.SetErrorValid | tasks/src/main/java/com/jacosro/tasks/ExecutableTask.java:320-324 | setError keeps the invariant |
| TaskModel.FinishValid | tasks/src/main/java/com/jacosro/tasks/ExecutableTask.java:69-79 | any finisher calls keep the invariant and leave queued work runnables alone |
| TaskModel.CancelValid | tasks/src/main/java/com/jacosro/tasks/ExecutableTask.java:189-195 | cancel keeps the invariant |
| TaskModel.TimeoutElapsedValid | tasks/src/main/java/com/jacosro/tasks/ExecutableTask.java:175-186 | an elapsed watcher keeps the invariant |
| TaskModel.ExecuteValid | tasks/src/main/java/com/jacosro/tasks/ExecutableTask.java:202-223 | execute keeps the invariant |
| TaskModel.RunPendingWorkValid | tasks/src/main/java/com/jacosro/tasks/ExecutableTask.java:208-220 | running a queued work runnable keeps the invariant |
| TaskRuns.StepValid | tasks/src/main/java/com/jacosro/tasks/ExecutableTask.java:101-223 | every event keeps the invariant |
| TaskRuns.RunValid | tasks/src/main/java/com/jacosro/tasks/ExecutableTask.java:101-223 | every run keeps the invariant |
| TaskRuns.FinishGrows | tasks/src/main/java/com/jacosro/tasks/ExecutableTask.java:308-324 | finisher calls never lower the state, never un-finish the task and never take back a handed-out runnable |
| TaskRuns.StepGrows | tasks/src/main/java/com/jacosro/tasks/ExecutableTask.java:364-370 | the same for every event |
| TaskRuns.StepAfterFinish | tasks/src/main/java/com/jacosro/tasks/ExecutableTask.java:101-153 | once finished, an event adds at most one runnable: a late listener whose kind matches the state |
| TaskRuns.RunGrows | tasks/src/main/java/com/jacosro/tasks/ExecutableTask.java:364-370 | over a whole run, state and finished flag only move forward and the log only grows |
| TaskRuns.FinishesAtMostOnce | tasks/src/main/java/com/jacosro/tasks/ExecutableTask.java:232-237 | in any run, doOnFinish gets past its guard at most once, and never if the task was already finished |
| TaskFindings.CancelAfterFinishThrows | tasks/src/main/java/com/jacosro/tasks/ExecutableTask.java:189-195 | cancel on a finished task sets CANCELLED and then throws NullPointerException |
| TaskFindings.LateErrorMixesOutcomes | tasks/src/main/java/com/jacosro/tasks/ExecutableTask.java:308-324 | in a concrete run through the public API (a background task whose work calls withResult then withError), one listener receives the result, another receives the later error, and the task reports ERROR |
| TaskFindings.StaleWatcherTimesOut | tasks/src/main/java/com/jacosro/tasks/ExecutableTask.java:168-186 | in a concrete run, the first, replaced watcher times the task out and runs the second callback |
| TaskFindings.CancelFixedIdempotent | tasks/src/main/java/com/jacosro/tasks/ExecutableTask.java:189-195 | the corrected cancel does nothing to a finished task and is idempotent |
| TaskFindings.OnlyLiveWatcherTimesOut | tasks/src/main/java/com/jacosro/tasks/ExecutableTask.java:168-186 | with the correction, a replaced watcher changes neither the state, nor the finished flag, nor the log |
| TaskFindings.DoOnFinishConsistent | tasks/src/main/java/com/jacosro/tasks/ExecutableTask.java:232-276 | the first doOnFinish hands out only listeners that match the state |
| TaskFindings.FinisherStepFixedConsistent | tasks/src/main/java/com/jacosro/tasks/ExecutableTask.java:308-324 | a corrected finisher call keeps the log consistent with the state and ignores a finished task |
| TaskFindings.FinishFixedConsistent | tasks/src/main/java/com/jacosro/tasks/ExecutableTask.java:69-79 | the same for any sequence of corrected finisher calls |
| TaskFindings.StepFixedConsistent | tasks/src/main/java/com/jacosro/tasks/ExecutableTask.java:101-223 | every corrected event keeps the log consistent; once finished, state, result and error are frozen |
| TaskFindings.RunFixedConsistent | tasks/src/main/java/com/jacosro/tasks/ExecutableTask.java:101-223 | every corrected run keeps the log consistent with the state |
| TaskFindings.ResultAndErrorExclusive | tasks/src/main/java/com/jacosro/tasks/ExecutableTask.java:232-234 | with the corrections, no run hands out both a result-listener runnable and an error-listener runnable |
| ExecutableTasks.ExecutableTask.constructor | tasks/src/main/java/com/jacosro/tasks/ExecutableTask.java:81-93 | empty queues, INIT, the given executor, and an id taken from the shared counter |
| ExecutableTasks.ExecutableTask.SetState | tasks/src/main/java/com/jacosro/tasks/ExecutableTask.java:364-370 | the fields become TaskModel.SetState of the old ones |
| ExecutableTasks.ExecutableTask.NullObjects | tasks/src/main/java/com/jacosro/tasks/ExecutableTask.java:286-299 | drops queues, executors, the watcher and the finisher |
| ExecutableTasks.ExecutableTask.DrainResultListeners | tasks/src/main/java/com/jacosro/tasks/ExecutableTask.java:239-249 | the loop polls the queue empty and hands out exactly ResultCalls of the old queue |
| ExecutableTasks.ExecutableTask.DrainErrorListeners | tasks/src/main/java/com/jacosro/tasks/ExecutableTask.java:250-260 | the same for ErrorCalls |
| ExecutableTasks.ExecutableTask.DoOnFinish | tasks/src/main/java/com/jacosro/tasks/ExecutableTask.java:232-276 | the fields become TaskModel.DoOnFinish of the old ones |
| ExecutableTasks.ExecutableTask.AddOnResultListener | tasks/src/main/java/com/jacosro/tasks/ExecutableTask.java:101-123 | the fields become TaskModel.AddOnResultListener of the old ones |
| ExecutableTasks.ExecutableTask.AddOnErrorListener | tasks/src/main/java/com/jacosro/tasks/ExecutableTask.java:131-153 | the fields become TaskModel.AddOnErrorListener of the old ones |
| ExecutableTasks.ExecutableTask.SetTimeout | tasks/src/main/java/com/jacosro/tasks/ExecutableTask.java:160-187 | fields and outcome are TaskModel.SetTimeout of the old fields |
| ExecutableTasks.ExecutableTask.TimeoutElapsed | tasks/src/main/java/com/jacosro/tasks/ExecutableTask.java:179-184 | the fields become TaskModel.TimeoutElapsed of the old ones |
| ExecutableTasks.ExecutableTask.Cancel | tasks/src/main/java/com/jacosro/tasks/ExecutableTask.java:189-195 | fields and outcome are TaskModel.Cancel of the old fields |
| ExecutableTasks.ExecutableTask.SetResult | tasks/src/main/java/com/jacosro/tasks/ExecutableTask.java:308-312 | the fields become TaskModel.SetResult of the old ones |
| ExecutableTasks.ExecutableTask.SetError | tasks/src/main/java/com/jacosro/tasks/ExecutableTask.java:320-324 | the fields become TaskModel.SetError of the old ones |
| ExecutableTasks.ExecutableTask.Finisher | tasks/src/main/java/com/jacosro/tasks/ExecutableTask.java:69-79 | one finisher call |
| ExecutableTasks.ExecutableTask.RunWork | tasks/src/main/java/com/jacosro/tasks/ExecutableTask.java:208-220 | the loop makes the work's finisher calls in order; the result is TaskModel.RunWork |
| ExecutableTasks.ExecutableTask.Execute | tasks/src/main/java/com/jacosro/tasks/ExecutableTask.java:202-223 | fields and outcome are TaskModel.Execute of the old fields |
| ExecutableTasks.ExecutableTask.RunPendingWork | tasks/src/main/java/com/jacosro/tasks/ExecutableTask.java:208-220 | an executor runs the queued work runnable |
| ExecutableTasks.ExecutableTask.Equals | tasks/src/main/java/com/jacosro/tasks/ExecutableTask.java:383-393 | equal iff the other task is non-null and has the same id |
| Joins.JoinedState | tasks/src/main/java/com/jacosro/tasks/Tasks.java:146-160 | a RUNNING task whose finisher the join calls ends in ERROR if any call is withError, else in SUCCESS if one is withResult, else stays RUNNING |
| Joins.WhenAllFromCounts | tasks/src/main/java/com/jacosro/tasks/Tasks.java:146-161 | from any counter: the count drops by the number of results; one withError per error; one withResult iff the results reach the starting count |
| Joins.WhenAllCounts | tasks/src/main/java/com/jacosro/tasks/Tasks.java:146-161 | whenAll calls withError once per failed task, and calls withResult exactly once iff 0 < size <= number of results |
| Joins.WhenAllOutcome | tasks/src/main/java/com/jacosro/tasks/Tasks.java:137-165 | the returned task fails iff a supplied task failed; it succeeds iff none failed and all size tasks succeeded; it finishes iff one of these holds |
| Joins.WhenAllEmptyHangs | tasks/src/main/java/com/jacosro/tasks/Tasks.java:146-154 | for an empty collection, the returned task stays RUNNING |
| Joins.WhenAllFixedOutcome | tasks/src/main/java/com/jacosro/tasks/Tasks.java:137-165 | with the correction, the returned task succeeds iff no task failed and at least size results arrived (so at once for an empty collection) |
| Joins.CollectFromCounts | tasks/src/main/java/com/jacosro/tasks/Tasks.java:211-231 | the same counts for the whenAllSuccess join from any starting collector |
| Joins.CollectOutcome | tasks/src/main/java/com/jacosro/tasks/Tasks.java:203-236 | whenAllSuccess fails iff a supplied task failed and succeeds iff none failed and all size tasks succeeded |
| Joins.CollectEmptyHangs | tasks/src/main/java/com/jacosro/tasks/Tasks.java:211-225 | for an empty collection, whenAllSuccess never calls its finisher |
| Joins.CollectFixedOutcome | tasks/src/main/java/com/jacosro/tasks/Tasks.java:203-236 | with the correction, an empty collection yields the empty list, and success iff no failure and at least size results |
| Joins.CollectPrefix | tasks/src/main/java/com/jacosro/tasks/Tasks.java:214-225 | after the first k arrivals, each slot holds its task's result if it has arrived (null otherwise), the count is size - k, and the finisher is called only at k = size |
| Joins.ResultsInSubmissionOrder | tasks/src/main/java/com/jacosro/tasks/Tasks.java:211-225 | in whatever order the tasks report, the list passed to withResult holds each task's result at that task's position in the collection, and is passed exactly once |
| Tasks.ForResult | tasks/src/main/java/com/jacosro/tasks/Tasks.java:29-38 | a fresh current-thread task with no work, finished by setResult |
| Tasks.ForError | tasks/src/main/java/com/jacosro/tasks/Tasks.java:47-58 | a fresh current-thread task with no work, finished by setError |
| Tasks.ForValueFinished | tasks/src/main/java/com/jacosro/tasks/Tasks.java:29-58 | such a task is finished with its value, has handed out nothing, rejects execute, and gives its value to a matching late listener |
| Tasks.RunOnExecutor | tasks/src/main/java/com/jacosro/tasks/Tasks.java:107-115 | a fresh task with the given executor and work, executed once |
| Tasks.Run | tasks/src/main/java/com/jacosro/tasks/Tasks.java:68-71 | runOnExecutor with the current-thread executor |
| Tasks.RunAsync | tasks/src/main/java/com/jacosro/tasks/Tasks.java:82-85 | runOnExecutor with a background executor |
| Tasks.RunOnMainThread | tasks/src/main/java/com/jacosro/tasks/Tasks.java:94-97 | runOnExecutor with the main-thread executor |
| Tasks.RunOnExecutorOutcome | tasks/src/main/java/com/jacosro/tasks/Tasks.java:107-115 | execute of a new task never throws; on the current thread the work has run and set the highest state it asked for; otherwise the task is RUNNING with one queued runnable, and running that runnable later ends where running it at once would |
| Tasks.WhenAllJoin.constructor | tasks/src/main/java/com/jacosro/tasks/Tasks.java:146-146 | the countdown starts at the collection's size |
| Tasks.WhenAllJoin.Deliver | tasks/src/main/java/com/jacosro/tasks/Tasks.java:149-160 | one listener invocation updates the count and makes the finisher calls as Joins.WhenAllStep |
| Tasks.WhenAllSuccessJoin.constructor | tasks/src/main/java/com/jacosro/tasks/Tasks.java:211-212 | an all-null results array of the collection's size and a count of that size |
| Tasks.WhenAllSuccessJoin.Deliver | tasks/src/main/java/com/jacosro/tasks/Tasks.java:218-231 | one listener invocation stores the result in its slot, updates the count and calls the finisher as Joins.CollectStep |
| BaseTaskModel.Initial | tasks/src/main/java/com/jacosro/tasks/BaseTask.java:81-92 | a new base task is valid, is in INIT and has posted and delivered nothing |
| BaseTaskModel.ResultDeliveries | tasks/src/main/java/com/jacosro/tasks/BaseTask.java:180-182 | one result-listener invocation per queued listener, in queue order, each with the same value |
| BaseTaskModel.ErrorDeliveries | tasks/src/main/java/com/jacosro/tasks/BaseTask.java:168-170 | the same for the error listeners |
| BaseTaskModel.CheckStateRule | tasks/src/main/java/com/jacosro/tasks/BaseTask.java:132-139 | checkState passes exactly the INIT tasks and otherwise throws IllegalStateException |
| BaseTaskModel.ExecuteRule | tasks/src/main/java/com/jacosro/tasks/BaseTask.java:117-130 | execute changes nothing and throws unless the task is in INIT; from INIT it sets RUNNING and runs the work now, or queues it |
| BaseTaskModel.OnFinishOnce | tasks/src/main/java/com/jacosro/tasks/BaseTask.java:154-199 | onFinish ignores a complete task; otherwise it sets FINISHED, posts one drain runnable, nulls result, error, executor and handler, and shuts down an owned executor |
| BaseTaskModel.AddListenerRule | tasks/src/main/java/com/jacosro/tasks/BaseTask.java:94-106 | a null listener is ignored; a non-null result or error listener is appended at the end of its own queue, or causes NullPointerException once the drain has dropped the queues |
| BaseTaskModel.FinishWithErrorIsSilent | tasks/src/main/java/com/jacosro/tasks/BaseTask.java:74-78 | finishTaskWithError only stores the error and sets CANCELLED: nothing is posted, released or shut down |
| BaseTaskModel.ResultListenersGetNull | tasks/src/main/java/com/jacosro/tasks/BaseTask.java:177-190 | after finishTaskWithResult, the posted runnable calls every queued result listener with null |
| BaseTaskModel.FinishWithResultValid | tasks/src/main/java/com/jacosro/tasks/BaseTask.java:69-72 | finishTaskWithResult keeps the base-task invariant |
| BaseTaskModel.CallbackValid | tasks/src/main/java/com/jacosro/tasks/BaseTask.java:67-79 | any callback calls keep the invariant and never bring a task back to INIT; on a RUNNING task, any call completes it |
| BaseTaskModel.ExecuteValid | tasks/src/main/java/com/jacosro/tasks/BaseTask.java:117-130 | execute keeps the invariant and succeeds only from INIT |
| BaseTaskModel.RunPendingWorkValid | tasks/src/main/java/com/jacosro/tasks/BaseTask.java:122-127 | running a queued work runnable keeps the invariant |
| BaseTaskModel.RunPostedValid | tasks/src/main/java/com/jacosro/tasks/BaseTask.java:165-187 | running the posted runnable keeps the invariant and does not throw |
| BaseTaskRuns.StepValid | tasks/src/main/java/com/jacosro/tasks/BaseTask.java:94-199 | every event keeps the invariant |
| BaseTaskRuns.RunValid | tasks/src/main/java/com/jacosro/tasks/BaseTask.java:94-199 | every run keeps the invariant |
| BaseTaskRuns.AtMostOnce | tasks/src/main/java/com/jacosro/tasks/BaseTask.java:117-139 | in any run, the work runs at most once and an owned executor is shut down at most once (never, if the task does not own one) |
| BaseTaskRuns.RunShutdowns | tasks/src/main/java/com/jacosro/tasks/BaseTask.java:195-198 | shutdowns plus a still-owned executor never exceed their starting total |
| BaseTaskRuns.CallbackShutdowns | tasks/src/main/java/com/jacosro/tasks/BaseTask.java:195-198 | callback calls keep shutdowns plus a still-owned executor unchanged |
| BaseTaskRuns.StepShutdowns | tasks/src/main/java/com/jacosro/tasks/BaseTask.java:195-198 | no event increases shutdowns plus a still-owned executor |
| BaseTaskRuns.CallbackNoErrorPath | tasks/src/main/java/com/jacosro/tasks/BaseTask.java:74-78 | callback calls never post an error drain |
| BaseTaskRuns.StepNoErrorPath | tasks/src/main/java/com/jacosro/tasks/BaseTask.java:141-150 | no event posts an error drain or calls an error listener |
| BaseTaskRuns.RunNoErrorPath | tasks/src/main/java/com/jacosro/tasks/BaseTask.java:154-175 | the same over a whole run |
| BaseTaskRuns.ErrorListenersNeverCalled | tasks/src/main/java/com/jacosro/tasks/BaseTask.java:74-78 | in any run of a new base task, every listener invocation is a result listener's |
| BaseTaskFindings.ResultListenersGetResult | tasks/src/main/java/com/jacosro/tasks/BaseTask.java:177-190 | with the correction, every queued result listener receives the task's result, and a later finishTaskWithResult does not change it |
| BaseTaskFindings.ErrorListenersGetError | tasks/src/main/java/com/jacosro/tasks/BaseTask.java:74-78 | with the correction, a failing task ends CANCELLED, shuts down its owned executor, and every queued error listener receives the error |
| BaseTaskFindings.FixedIgnoresLateCalls | tasks/src/main/java/com/jacosro/tasks/BaseTask.java:156-158 | with the correction, a complete task ignores further results and errors, apart from storing the value |
| BaseTasks.BaseTask.constructor | tasks/src/main/java/com/jacosro/tasks/BaseTask.java:86-92 | empty queues, INIT, the given executor and a live handler |
| BaseTasks.BaseTask.WithOwnExecutor | tasks/src/main/java/com/jacosro/tasks/BaseTask.java:81-84 | the same, with a single-thread executor the task owns |
| BaseTasks.BaseTask.SetState | tasks/src/main/java/com/jacosro/tasks/BaseTask.java:213-215 | overwrites the state |
| BaseTasks.BaseTask.AddOnResultListener | tasks/src/main/java/com/jacosro/tasks/BaseTask.java:94-99 | fields and outcome are BaseTaskModel.AddOnResultListener of the old fields |
| BaseTasks.BaseTask.AddOnErrorListener | tasks/src/main/java/com/jacosro/tasks/BaseTask.java:101-106 | fields and outcome are BaseTaskModel.AddOnErrorListener of the old fields |
| BaseTasks.BaseTask.Cancel | tasks/src/main/java/com/jacosro/tasks/BaseTask.java:113-115 | sets CANCELLED |
| BaseTasks.BaseTask.CancelWith | tasks/src/main/java/com/jacosro/tasks/BaseTask.java:108-111 | stores the error and sets CANCELLED |
| BaseTasks.BaseTask.CheckState | tasks/src/main/java/com/jacosro/tasks/BaseTask.java:132-139 | the outcome is BaseTaskModel.CheckState |
| BaseTasks.BaseTask.OnFinish | tasks/src/main/java/com/jacosro/tasks/BaseTask.java:154-199 | the fields become BaseTaskModel.OnFinish of the old ones |
| BaseTasks.BaseTask.OnPreExecute | tasks/src/main/java/com/jacosro/tasks/BaseTask.java:141-150 | the fields become BaseTaskModel.OnPreExecute of the old ones |
| BaseTasks.BaseTask.FinishWithResult | tasks/src/main/java/com/jacosro/tasks/BaseTask.java:69-72 | the fields become BaseTaskModel.FinishWithResult of the old ones |
| BaseTasks.BaseTask.FinishWithError | tasks/src/main/java/com/jacosro/tasks/BaseTask.java:74-78 | the fields become BaseTaskModel.FinishWithError of the old ones |
| BaseTasks.BaseTask.CallbackCall | tasks/src/main/java/com/jacosro/tasks/BaseTask.java:67-79 | one callback call |
| BaseTasks.BaseTask.RunWork | tasks/src/main/java/com/jacosro/tasks/BaseTask.java:122-127 | the loop makes the work's callback calls in order; the result is BaseTaskModel.RunWork |
| BaseTasks.BaseTask.Execute | tasks/src/main/java/com/jacosro/tasks/BaseTask.java:117-130 | fields and outcome are BaseTaskModel.Execute of the old fields |
| BaseTasks.BaseTask.RunPendingWork | tasks/src/main/java/com/jacosro/tasks/BaseTask.java:122-127 | the executor runs the queued work runnable |
| BaseTasks.BaseTask.DrainResultQueue | tasks/src/main/java/com/jacosro/tasks/BaseTask.java:177-187 | the loop polls the result queue empty, delivering exactly ResultDeliveries of the old queue, and then drops both queues |
| BaseTasks.BaseTask.DrainErrorQueue | tasks/src/main/java/com/jacosro/tasks/BaseTask.java:165-175 | the same for the error queue |
| BaseTasks.BaseTask.RunPosted | tasks/src/main/java/com/jacosro/tasks/BaseTask.java:164-188 | the looper runs the oldest posted runnable, as BaseTaskModel.RunPosted |

## Left out

Concurrency and time:

- Threads, `synchronized (stateLock)`, and the atomics are not modelled. Operations are sequential steps, and a run is any interleaving of whole method calls. Races inside one method are not modelled, for example the non-atomic `count[0]--` in whenAllSuccess (Tasks.java:223).
- BaseTasks.BaseTask.DrainResultQueue and BaseTasks.BaseTask.DrainErrorQueue: poll a local copy of the queue and store the queue field once, after the loop. The source polls the shared queue, which differs only when another thread adds a listener during the drain.
- SystemClock.sleep and real time are not modelled. A timeout watcher's sleep ending is an event that may happen at any point after the watcher is armed.

Executors and runnables:

- Runnables handed to an executor other than the current-thread one are recorded and never run. Listeners are identified by number, and their bodies are not modelled. In particular, a listener run inline by the current-thread executor cannot call back into the task.
- A listener runnable records `mResult` / `mError` when it is handed out. The source reads the field when the runnable runs, and the two differ only after a late setResult / setError (finding 2).
- The timeout runnable (ExecutableTask.java:263-270) likewise records `mTimeoutCallback` when doOnFinish hands it out. The source reads the field when the runnable runs and then sets it to null. The two differ when setTimeout is called on the finished task before a deferred main-thread or background runnable runs: the source then runs the new callback. The model keeps the old one and does not model the nulling.
- The timeout watcher is itself an ExecutableTask made by runAsync. The model numbers watchers separately, so watcher creations do not advance the shared id counter.

Parameters and null handling:

- `Objects.requireNonNull` on executor and listener is not modelled. Parameters that the source requires to be non-null cannot be null in the model.
- The overloads that default to the main-thread executor are not modelled separately: `addOnResultListener(listener)`, `addOnErrorListener(listener)` and `setTimeout(ms, callback)`. They are the same call with `MainThread`.
- The whenAll / whenAllSuccess varargs overloads are not modelled separately; they are the Collection forms.

Joins:

- The join's loop that attaches listeners to the supplied tasks does not update the supplied task objects. A supplied task is represented by the invocations of its two listeners, a sequence of `Signal`s.
- The join objects are created apart from the work runnable that creates them in the source.
- Tasks.WhenAllSuccessJoin.Deliver: passes a copy of the results array where the source passes an `Arrays.asList` view. Later writes into the array are not seen through the list.
- Joins.WhenAllStep: the AtomicInteger countdown is an unbounded integer. 32-bit wrap-around would need 2^31 listener invocations.

Not modelled at all:

- `Tasks.schedule` (Tasks.java:181-195): it composes runAsync, a sleep and a result listener, and adds no state of its own.
- The `onFinish()` hook, which is empty; `checkWorkFinisherCalled`, which nothing calls; `toString`; and the `getResult` / `getError` getters. The getters are the `result` / `error` fields.
- TaskFactory, ObservableTask, TaskExecution, TimeoutCallback, the interfaces and the sample app.

Restricted members:

- ExecutableTasks.ExecutableTask.Equals: compares only with a task of the same type arguments. The source's `this == o` and `instanceof` checks are covered by the null and id test.
- ExecutableTasks.ExecutableTask.NullObjects and ExecutableTasks.ExecutableTask.DoOnFinish: require what their callers inside the class guarantee: the task is finished, or its state is at least TIMEOUT.
- BaseTasks.BaseTask.OnPreExecute: requires a task that is not FINISHED. This is what its only caller, `execute` after `checkState`, guarantees.
- BaseTasks.BaseTask.RunWork: requires a task that has left INIT and whose work has not run yet. This is what execute and the executor guarantee.

## Findings

| source | as written | input that shows it | evidently intended | confidence | as-written member | corrected member |
|---|---|---|---|---|---|---|
| tasks/src/main/java/com/jacosro/tasks/ExecutableTask.java:189-195 | cancel() raises the state to CANCELLED, then clears queues that nullObjects has already dropped | a task finished by withResult, then cancel(): isSuccessful() becomes false, and cancel throws NullPointerException | cancelling a finished task has no effect | medium, not executed | TaskFindings.CancelAfterFinishThrows | TaskFindings.CancelFixedIdempotent |
| tasks/src/main/java/com/jacosro/tasks/ExecutableTask.java:308-324 | setResult / setError after finish still raise the state; only the dispatch is guarded | a task on a background executor whose work calls withResult(r) then withError(e): result listener added, execute, the executor runs the work, error listener added; the first listener gets r, the second gets e, and the task reports ERROR | the first completion wins (the comment at line 234 says later results or errors are ignored) | medium, not executed | TaskFindings.LateErrorMixesOutcomes | TaskFindings.ResultAndErrorExclusive |
| tasks/src/main/java/com/jacosro/tasks/ExecutableTask.java:168-186 | cancel() of the previous watcher task does not stop its sleep, and the watcher then forces TIMEOUT | setTimeout(1000, main, cb1), then setTimeout(5000, background, cb2): after 1 s the task times out and cb2 runs | only the last timeout set applies | medium, not executed | TaskFindings.StaleWatcherTimesOut | TaskFindings.OnlyLiveWatcherTimesOut |
| tasks/src/main/java/com/jacosro/tasks/Tasks.java:146-154 | the countdown starts at the collection's size, and only a supplied task can decrement it | whenAll of an empty collection: the returned task stays RUNNING forever | all of no tasks have succeeded, so the task succeeds at once | medium, not executed | Joins.WhenAllEmptyHangs | Joins.WhenAllFixedOutcome |
| tasks/src/main/java/com/jacosro/tasks/Tasks.java:211-225 | the same countdown in whenAllSuccess | whenAllSuccess of an empty collection never calls its finisher | it succeeds at once with the empty list | medium, not executed | Joins.CollectEmptyHangs | Joins.CollectFixedOutcome |
| tasks/src/main/java/com/jacosro/tasks/BaseTask.java:177-190 | the posted runnable reads `result` when the looper runs it, but onFinish sets it to null right after posting | add a result listener, then finishTaskWithResult(4), then let the main looper run: the listener receives null | listeners receive 4 | high, not executed | BaseTaskModel.ResultListenersGetNull | BaseTaskFindings.ResultListenersGetResult |
| tasks/src/main/java/com/jacosro/tasks/BaseTask.java:74-78 | cancel() comes before onFinish(true), so onFinish's isComplete guard returns at once | an error listener, then finishTaskWithError("x"): the listener is never called, and an owned executor is never shut down | error listeners receive "x" | high, not executed | BaseTaskRuns.ErrorListenersNeverCalled | BaseTaskFindings.ErrorListenersGetError |
