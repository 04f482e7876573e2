/** The ExecutableTask class (ExecutableTask.java): its fields are updated in
    place, and every method is proved to leave them as the matching function
    of TaskModel says. */
module ExecutableTasks {
  import opened Common
  import opened TaskState
  import opened TaskIds
  import TM = TaskModel

  class ExecutableTask<R, E> {
    const id: int
    /** What the subclass's onExecution does with the finisher it is handed. */
    const work: seq<FinisherCall<R, E>>

    var state: State
    var finished: bool
    var result: Option<R>
    var error: Option<E>
    var resultListeners: Option<seq<TM.Entry>>
    var errorListeners: Option<seq<TM.Entry>>
    var taskWorkExecutor: Option<Executor>
    var timeoutExecutor: Option<Executor>
    var timeoutCallback: Option<CallbackId>
    var watchers: nat
    var fired: set<nat>
    var timeoutTask: Option<nat>
    var finisherLive: bool
    var pendingRuns: nat
    /** The runnables this task has handed to executors, in order. */
    var dispatched: seq<TM.Call<R, E>>

    function Model(): TM.Task<R, E>
      reads this
    {
      TM.Task(state, finished, result, error, resultListeners, errorListeners,
              taskWorkExecutor, timeoutExecutor, timeoutCallback, watchers, fired,
              timeoutTask, finisherLive, pendingRuns, dispatched)
    }

    ghost predicate Valid()
      reads this
    {
      TM.Valid(Model())
    }

    /** The constructor: empty queues, INIT, and an id from the shared counter. */
    constructor (executor: Executor, work: seq<FinisherCall<R, E>>, counter: IdCounter)
      requires counter.Valid()
      modifies counter
      ensures Valid() && Model() == TM.Initial(executor) && this.work == work
      ensures counter.Valid() && (id, counter.last) == AssignId(old(counter.last))
    {
      var newId := counter.Assign();
      id := newId;
      this.work := work;
      resultListeners, errorListeners := Some([]), Some([]);
      taskWorkExecutor := Some(executor);
      finisherLive := true;
      state, finished := Init, false;
      result, error := None, None;
      timeoutExecutor, timeoutCallback, timeoutTask := None, None, None;
      watchers, fired, pendingRuns := 0, {}, 0;
      dispatched := [];
    }

    predicate IsSuccessful() reads this { state == Success }
    predicate IsFailed() reads this { state == Error }
    predicate IsTimeout() reads this { state == Timeout }
    predicate IsCancelled() reads this { state == Cancelled }
    predicate IsFinished() reads this { finished }

    method SetState(s: State)
      requires Valid()
      modifies this
      ensures Valid() && Model() == TM.SetState(old(Model()), s)
    {
      if Code(state) < Code(s) {
        state := s;
      }
    }

    method NullObjects()
      requires finished && Code(Timeout) <= Code(state)
      requires forall w :: w in fired ==> w < watchers
      modifies this
      ensures Valid() && Model() == TM.NullObjects(old(Model()))
    {
      resultListeners, errorListeners := None, None;
      taskWorkExecutor := None;
      timeoutExecutor, timeoutTask := None, None;
      finisherLive := false;
    }

    /** The success branch of doOnFinish: poll the result queue until it is
        empty, handing each listener to its executor with mResult. */
    method DrainResultListeners()
      requires resultListeners.Some?
      modifies this
      ensures Model() == old(Model()).(resultQueue := Some([]),
        calls := old(dispatched) + TM.ResultCalls(old(resultListeners.value), result))
    {
      ghost var queue := resultListeners.value;
      ghost var k := 0;
      while resultListeners.value != []
        invariant 0 <= k <= |queue|
        invariant resultListeners == Some(queue[k..])
        invariant dispatched == old(dispatched) + TM.ResultCalls(queue[..k], result)
        invariant Model() == old(Model()).(resultQueue := resultListeners, calls := dispatched)
        decreases |resultListeners.value|
      {
        var entry := resultListeners.value[0];
        resultListeners := Some(resultListeners.value[1..]);
        dispatched := dispatched + [TM.ResultCall(entry.listener, entry.executor, result)];
        assert queue[..k + 1][..k] == queue[..k];
        k := k + 1;
      }
      assert queue[..k] == queue;
    }

    /** The error branch of doOnFinish: the same over the error queue with mError. */
    method DrainErrorListeners()
      requires errorListeners.Some?
      modifies this
      ensures Model() == old(Model()).(errorQueue := Some([]),
        calls := old(dispatched) + TM.ErrorCalls(old(errorListeners.value), error))
    {
      ghost var queue := errorListeners.value;
      ghost var k := 0;
      while errorListeners.value != []
        invariant 0 <= k <= |queue|
        invariant errorListeners == Some(queue[k..])
        invariant dispatched == old(dispatched) + TM.ErrorCalls(queue[..k], error)
        invariant Model() == old(Model()).(errorQueue := errorListeners, calls := dispatched)
        decreases |errorListeners.value|
      {
        var entry := errorListeners.value[0];
        errorListeners := Some(errorListeners.value[1..]);
        dispatched := dispatched + [TM.ErrorCall(entry.listener, entry.executor, error)];
        assert queue[..k + 1][..k] == queue[..k];
        k := k + 1;
      }
      assert queue[..k] == queue;
    }

    /** doOnFinish: returns at once if finished; otherwise sets the flag,
        dispatches according to the state, then nulls the task's objects. */
    method DoOnFinish()
      requires Valid() && (finished || Code(Timeout) <= Code(state))
      modifies this
      ensures Valid() && Model() == TM.DoOnFinish(old(Model()))
    {
      if finished {
        return;
      }
      finished := true;
      if state == Success {
        DrainResultListeners();
      } else if state == Error {
        DrainErrorListeners();
      } else if state == Timeout && timeoutExecutor.Some? {
        dispatched := dispatched + [TM.TimeoutCall(timeoutExecutor.value, timeoutCallback)];
      }
      NullObjects();
    }

    /** addOnResultListener(executor, listener) */
    method AddOnResultListener(executor: Executor, listener: ListenerId)
      requires Valid()
      modifies this
      ensures Valid() && Model() == TM.AddOnResultListener(old(Model()), executor, listener)
    {
      if finished {
        if state == Success {
          dispatched := dispatched + [TM.ResultCall(listener, executor, result)];
        }
        return;
      }
      resultListeners := Some(resultListeners.value + [TM.Entry(listener, executor)]);
    }

    /** addOnErrorListener(executor, listener) */
    method AddOnErrorListener(executor: Executor, listener: ListenerId)
      requires Valid()
      modifies this
      ensures Valid() && Model() == TM.AddOnErrorListener(old(Model()), executor, listener)
    {
      if finished {
        if state == Error {
          dispatched := dispatched + [TM.ErrorCall(listener, executor, error)];
        }
        return;
      }
      errorListeners := Some(errorListeners.value + [TM.Entry(listener, executor)]);
    }

    /** setTimeout(milliseconds, executor, callback) */
    method SetTimeout(millis: int, executor: Executor, callback: Option<CallbackId>) returns (outcome: Outcome)
      requires Valid()
      modifies this
      ensures Valid() && (Model(), outcome) == TM.SetTimeout(old(Model()), millis, executor, callback)
    {
      if millis < 0 {
        return IllegalArgument;
      }
      if timeoutTask.Some? && timeoutTask.value in fired {
        return NullPointer;
      }
      timeoutCallback := callback;
      timeoutExecutor := Some(executor);
      timeoutTask := Some(watchers);
      watchers := watchers + 1;
      outcome := Ok;
    }

    /** The work of watcher `w` after its sleep: setState(TIMEOUT); doOnFinish(). */
    method TimeoutElapsed(w: nat)
      requires Valid() && w < watchers && w !in fired
      modifies this
      ensures Valid() && Model() == TM.TimeoutElapsed(old(Model()), w)
    {
      SetState(Timeout);
      DoOnFinish();
      fired := fired + {w};
    }

    /** cancel() */
    method Cancel() returns (outcome: Outcome)
      requires Valid()
      modifies this
      ensures Valid() && (Model(), outcome) == TM.Cancel(old(Model()))
    {
      SetState(Cancelled);
      if resultListeners.None? {
        return NullPointer;
      }
      resultListeners := Some([]);
      if errorListeners.None? {
        return NullPointer;
      }
      errorListeners := Some([]);
      DoOnFinish();
      outcome := Ok;
    }

    /** setResult(result) */
    method SetResult(r: R)
      requires Valid()
      modifies this
      ensures Valid() && Model() == TM.SetResult(old(Model()), r)
    {
      result := Some(r);
      SetState(Success);
      DoOnFinish();
    }

    /** setError(error) */
    method SetError(e: E)
      requires Valid()
      modifies this
      ensures Valid() && Model() == TM.SetError(old(Model()), e)
    {
      error := Some(e);
      SetState(Error);
      DoOnFinish();
    }

    /** mTaskWorkFinisher: withResult calls setResult, withError calls setError. */
    method Finisher(call: FinisherCall<R, E>)
      requires Valid()
      modifies this
      ensures Valid() && Model() == TM.FinisherStep(old(Model()), call)
    {
      match call {
        case WithResult(r) => SetResult(r);
        case WithError(e) => SetError(e);
      }
    }

    /** The work runnable: onExecution(mTaskWorkFinisher), the finisher calls
        of the work made one after the other. */
    method RunWork() returns (outcome: Outcome)
      requires Valid()
      modifies this
      ensures Valid() && (Model(), outcome) == TM.RunWork(old(Model()), work)
    {
      if !finisherLive {
        return if work == [] then Ok else NullPointer;
      }
      ghost var start := Model();
      var i := 0;
      while i < |work|
        invariant 0 <= i <= |work|
        invariant Valid() && Model() == TM.Finish(start, work[..i])
        decreases |work| - i
      {
        Finisher(work[i]);
        TM.FinishSnoc(start, work[..i], work[i]);
        assert work[..i + 1] == work[..i] + [work[i]];
        i := i + 1;
      }
      assert work[..i] == work;
      outcome := Ok;
    }

    /** execute() */
    method Execute() returns (outcome: Outcome)
      requires Valid()
      modifies this
      ensures Valid() && (Model(), outcome) == TM.Execute(old(Model()), work)
    {
      if finished {
        return IllegalState;
      }
      SetState(Running);
      match taskWorkExecutor
      case None => outcome := NullPointer;
      case Some(x) =>
        if x == CurrentThread {
          outcome := RunWork();
        } else {
          pendingRuns := pendingRuns + 1;
          outcome := Ok;
        }
    }

    /** A deferring executor gets round to one queued work runnable. */
    method RunPendingWork() returns (outcome: Outcome)
      requires Valid() && pendingRuns > 0
      modifies this
      ensures Valid() && (Model(), outcome) == TM.RunPendingWork(old(Model()), work)
    {
      pendingRuns := pendingRuns - 1;
      outcome := RunWork();
    }

    /** equals: the same object, or another ExecutableTask with the same id.
        Equality is by id alone, and ids repeat once the counter wraps, so two
        distinct tasks created MAX_VALUE creations apart are equal
        (TaskIds.IdsRepeatAfterWrap). */
    function Equals(other: ExecutableTask?<R, E>): (equal: bool)
      ensures equal <==> other != null && other.id == id
    {
      other != null && (other == this || other.id == id)
    }
  }
}
