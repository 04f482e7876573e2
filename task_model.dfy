/** ExecutableTask (ExecutableTask.java) as a value: its fields, and one
    function per method giving the fields after the method returns. Each
    public method is one atomic step. Runnables handed to executors are
    recorded in `calls`, in the order they were handed over. */
module TaskModel {
  import opened Common
  import opened TaskState

  /** A (listener, executor) pair held in a ListenersQueue. */
  datatype Entry = Entry(listener: ListenerId, executor: Executor)

  /** A runnable the task hands to an executor, with the value it delivers. */
  datatype Call<R, E> =
    | ResultCall(listener: ListenerId, executor: Executor, result: Option<R>)
    | ErrorCall(listener: ListenerId, executor: Executor, error: Option<E>)
    | TimeoutCall(executor: Executor, callback: Option<CallbackId>)

  /** The fields of an ExecutableTask. A queue, executor or watcher that
      `nullObjects` has cleared is `None`. Timeout watchers are numbered in the
      order `setTimeout` armed them; `liveWatcher` is `mTimeoutTask`, `fired`
      holds the watchers whose sleep has ended, and `finisherLive` says whether
      `mTaskWorkFinisher` is still set. `pendingRuns` counts work runnables
      waiting on a deferring executor. */
  datatype Task<R, E> = Task(
    state: State,
    finished: bool,
    result: Option<R>,
    error: Option<E>,
    resultQueue: Option<seq<Entry>>,
    errorQueue: Option<seq<Entry>>,
    workExecutor: Option<Executor>,
    timeoutExecutor: Option<Executor>,
    timeoutCallback: Option<CallbackId>,
    watchers: nat,
    fired: set<nat>,
    liveWatcher: Option<nat>,
    finisherLive: bool,
    pendingRuns: nat,
    calls: seq<Call<R, E>>)

  /** What holds between steps of every task built by the constructor. */
  ghost predicate Valid<R, E>(t: Task<R, E>)
  {
    && (t.finished <==> t.resultQueue.None?)
    && (t.finished <==> t.errorQueue.None?)
    && (t.finished <==> t.workExecutor.None?)
    && (t.finished <==> !t.finisherLive)
    && (t.finished ==> Code(Timeout) <= Code(t.state))
    && (!t.finished && t.watchers > 0 ==> t.timeoutExecutor.Some?)
    && (t.liveWatcher.Some? ==> t.liveWatcher.value < t.watchers && t.timeoutExecutor.Some?)
    && (forall w :: w in t.fired ==> w < t.watchers)
    && (!t.finished && t.liveWatcher.Some? ==> t.liveWatcher.value !in t.fired)
  }

  /** The task the constructor builds: INIT, two empty queues, the work executor. */
  function Initial<R, E>(executor: Executor): (t: Task<R, E>)
    ensures Valid(t) && !t.finished && t.state == Init && t.calls == []
  {
    Task(Init, false, None, None, Some([]), Some([]), Some(executor),
         None, None, 0, {}, None, true, 0, [])
  }

  function Items(q: Option<seq<Entry>>): seq<Entry>
  {
    match q
    case None => []
    case Some(entries) => entries
  }

  /** The runnables the success branch of doOnFinish hands out when it polls
      `q` to exhaustion: one per entry, in queue order, on the entry's executor. */
  function ResultCalls<R, E>(q: seq<Entry>, result: Option<R>): (cs: seq<Call<R, E>>)
    ensures |cs| == |q|
    ensures forall i :: 0 <= i < |q| ==> cs[i] == ResultCall(q[i].listener, q[i].executor, result)
  {
    if q == [] then []
    else ResultCalls(q[..|q| - 1], result) + [ResultCall(q[|q| - 1].listener, q[|q| - 1].executor, result)]
  }

  /** The same for the error branch. */
  function ErrorCalls<R, E>(q: seq<Entry>, error: Option<E>): (cs: seq<Call<R, E>>)
    ensures |cs| == |q|
    ensures forall i :: 0 <= i < |q| ==> cs[i] == ErrorCall(q[i].listener, q[i].executor, error)
  {
    if q == [] then []
    else ErrorCalls(q[..|q| - 1], error) + [ErrorCall(q[|q| - 1].listener, q[|q| - 1].executor, error)]
  }

  /** setState */
  function SetState<R, E>(t: Task<R, E>, s: State): Task<R, E>
  {
    t.(state := Raise(t.state, s))
  }

  /** nullObjects: drop both queues, the executors, the watcher and the finisher. */
  function NullObjects<R, E>(t: Task<R, E>): Task<R, E>
  {
    t.(resultQueue := None, errorQueue := None, workExecutor := None,
       timeoutExecutor := None, liveWatcher := None, finisherLive := false)
  }

  /** doOnFinish: ignored once finished; otherwise sets the finished flag,
      dispatches according to the state, then nulls the task's objects. */
  function DoOnFinish<R, E>(t: Task<R, E>): Task<R, E>
  {
    if t.finished then t
    else
      var dispatched :=
        if t.state == Success then t.calls + ResultCalls(Items(t.resultQueue), t.result)
        else if t.state == Error then t.calls + ErrorCalls(Items(t.errorQueue), t.error)
        else if t.state == Timeout && t.timeoutExecutor.Some? then
          t.calls + [TimeoutCall(t.timeoutExecutor.value, t.timeoutCallback)]
        else t.calls;
      NullObjects(t.(finished := true, calls := dispatched))
  }

  /** addOnResultListener(executor, listener) */
  function AddOnResultListener<R, E>(t: Task<R, E>, executor: Executor, listener: ListenerId): Task<R, E>
  {
    if t.finished then
      if t.state == Success then t.(calls := t.calls + [ResultCall(listener, executor, t.result)])
      else t
    else t.(resultQueue := Some(Items(t.resultQueue) + [Entry(listener, executor)]))
  }

  /** addOnErrorListener(executor, listener) */
  function AddOnErrorListener<R, E>(t: Task<R, E>, executor: Executor, listener: ListenerId): Task<R, E>
  {
    if t.finished then
      if t.state == Error then t.(calls := t.calls + [ErrorCall(listener, executor, t.error)])
      else t
    else t.(errorQueue := Some(Items(t.errorQueue) + [Entry(listener, executor)]))
  }

  /** setTimeout(milliseconds, executor, callback): rejects a negative delay;
      cancels the previous watcher task (which throws if that task has already
      finished, since its queues are null) and arms a new watcher. */
  function SetTimeout<R, E>(t: Task<R, E>, millis: int, executor: Executor, callback: Option<CallbackId>)
    : (Task<R, E>, Outcome)
  {
    if millis < 0 then (t, IllegalArgument)
    else if t.liveWatcher.Some? && t.liveWatcher.value in t.fired then (t, NullPointer)
    else
      (t.(timeoutCallback := callback, timeoutExecutor := Some(executor),
          liveWatcher := Some(t.watchers), watchers := t.watchers + 1), Ok)
  }

  /** The end of watcher `w`'s sleep: setState(TIMEOUT); doOnFinish(). */
  function TimeoutElapsed<R, E>(t: Task<R, E>, w: nat): Task<R, E>
    requires w < t.watchers && w !in t.fired
  {
    var done := DoOnFinish(SetState(t, Timeout));
    done.(fired := done.fired + {w})
  }

  /** cancel(): setState(CANCELLED), clear both queues, doOnFinish(). Clearing
      a queue that nullObjects has already dropped throws. */
  function Cancel<R, E>(t: Task<R, E>): (Task<R, E>, Outcome)
  {
    var raised := SetState(t, Cancelled);
    if raised.resultQueue.None? then (raised, NullPointer)
    else if raised.errorQueue.None? then (raised.(resultQueue := Some([])), NullPointer)
    else (DoOnFinish(raised.(resultQueue := Some([]), errorQueue := Some([]))), Ok)
  }

  /** setResult(result) */
  function SetResult<R, E>(t: Task<R, E>, result: R): Task<R, E>
  {
    DoOnFinish(SetState(t.(result := Some(result)), Success))
  }

  /** setError(error) */
  function SetError<R, E>(t: Task<R, E>, error: E): Task<R, E>
  {
    DoOnFinish(SetState(t.(error := Some(error)), Error))
  }

  /** One call on the work finisher. */
  function FinisherStep<R, E>(t: Task<R, E>, call: FinisherCall<R, E>): Task<R, E>
  {
    match call
    case WithResult(r) => SetResult(t, r)
    case WithError(e) => SetError(t, e)
  }

  /** The finisher calls `calls`, made one after the other. */
  function Finish<R, E>(t: Task<R, E>, calls: seq<FinisherCall<R, E>>): Task<R, E>
  {
    if calls == [] then t
    else FinisherStep(Finish(t, calls[..|calls| - 1]), calls[|calls| - 1])
  }

  lemma FinishSnoc<R, E>(t: Task<R, E>, calls: seq<FinisherCall<R, E>>, call: FinisherCall<R, E>)
    ensures Finish(t, calls + [call]) == FinisherStep(Finish(t, calls), call)
  {
    assert (calls + [call])[..|calls|] == calls;
  }

  /** The work runnable: onExecution(mTaskWorkFinisher). When the finisher has
      been nulled, the work's first call on it throws and nothing changes. */
  function RunWork<R, E>(t: Task<R, E>, work: seq<FinisherCall<R, E>>): (Task<R, E>, Outcome)
  {
    if !t.finisherLive then (t, if work == [] then Ok else NullPointer)
    else (Finish(t, work), Ok)
  }

  /** execute(): throws if finished; otherwise raises the state to RUNNING and
      hands the work runnable to the work executor, which runs it now only if
      it is the current-thread executor. */
  function Execute<R, E>(t: Task<R, E>, work: seq<FinisherCall<R, E>>): (Task<R, E>, Outcome)
  {
    if t.finished then (t, IllegalState)
    else
      var running := SetState(t, Running);
      match running.workExecutor
      case None => (running, NullPointer)
      case Some(x) =>
        if x == CurrentThread then RunWork(running, work)
        else (running.(pendingRuns := running.pendingRuns + 1), Ok)
  }

  /** A deferring executor runs one of the task's queued work runnables. */
  function RunPendingWork<R, E>(t: Task<R, E>, work: seq<FinisherCall<R, E>>): (Task<R, E>, Outcome)
    requires t.pendingRuns > 0
  {
    RunWork(t.(pendingRuns := t.pendingRuns - 1), work)
  }

  // ---------------------------------------------------------------------------
  // Properties of single steps

  /** The states the finisher calls ask for. */
  function Requested<R, E>(calls: seq<FinisherCall<R, E>>): (s: seq<State>)
    ensures |s| == |calls|
    ensures forall i :: 0 <= i < |calls| ==> s[i] == (if calls[i].WithResult? then Success else Error)
  {
    if calls == [] then []
    else Requested(calls[..|calls| - 1]) + [if calls[|calls| - 1].WithResult? then Success else Error]
  }

  /** After any finisher calls the state is the highest of the starting state
      and the requested ones; the task is finished as soon as one call was made. */
  lemma {:induction false} FinishRaisesToHighest<R, E>(t: Task<R, E>, calls: seq<FinisherCall<R, E>>)
    ensures Finish(t, calls).state == RaiseAll(t.state, Requested(calls))
    ensures Finish(t, calls).finished == (t.finished || calls != [])
  {
    if calls != [] {
      var front := calls[..|calls| - 1];
      FinishRaisesToHighest(t, front);
      assert Requested(calls)[..|calls| - 1] == Requested(front);
    }
  }

  /** The first doOnFinish sets the finished flag; every later one changes nothing. */
  lemma DoOnFinishOnce<R, E>(t: Task<R, E>)
    ensures t.finished ==> DoOnFinish(t) == t
    ensures DoOnFinish(t).finished
    ensures DoOnFinish(DoOnFinish(t)) == DoOnFinish(t)
  {
  }

  /** On SUCCESS doOnFinish schedules every queued result listener, in
      insertion order, on its own executor with mResult, and nothing else. */
  lemma DispatchOnSuccess<R, E>(t: Task<R, E>)
    requires !t.finished && t.state == Success && t.resultQueue == Some(Items(t.resultQueue))
    ensures var d := DoOnFinish(t);
      && |d.calls| == |t.calls| + |Items(t.resultQueue)|
      && d.calls[..|t.calls|] == t.calls
      && forall i :: 0 <= i < |Items(t.resultQueue)| ==>
           d.calls[|t.calls| + i] == ResultCall(Items(t.resultQueue)[i].listener, Items(t.resultQueue)[i].executor, t.result)
  {
  }

  /** On ERROR doOnFinish schedules every queued error listener in order with
      mError; on TIMEOUT only the timeout callback, on mTimeoutExecutor; on
      CANCELLED nothing. */
  lemma DispatchOnOtherStates<R, E>(t: Task<R, E>)
    requires !t.finished
    ensures t.state == Error ==> var d := DoOnFinish(t);
      && |d.calls| == |t.calls| + |Items(t.errorQueue)|
      && d.calls[..|t.calls|] == t.calls
      && forall i :: 0 <= i < |Items(t.errorQueue)| ==>
           d.calls[|t.calls| + i] == ErrorCall(Items(t.errorQueue)[i].listener, Items(t.errorQueue)[i].executor, t.error)
    ensures t.state == Timeout && t.timeoutExecutor.Some? ==>
      DoOnFinish(t).calls == t.calls + [TimeoutCall(t.timeoutExecutor.value, t.timeoutCallback)]
    ensures t.state == Cancelled ==> DoOnFinish(t).calls == t.calls
  {
  }

  /** Before finish a result listener is appended to the queue and nothing
      runs; after finish it is never queued, and it is scheduled at once with
      the stored result exactly when the state is SUCCESS. */
  lemma LateResultListener<R, E>(t: Task<R, E>, x: Executor, l: ListenerId)
    requires Valid(t)
    ensures var a := AddOnResultListener(t, x, l);
      && (!t.finished ==> a.resultQueue == Some(t.resultQueue.value + [Entry(l, x)]) && a.calls == t.calls)
      && (t.finished ==>
            a.resultQueue.None? &&
            a.calls == t.calls + (if t.state == Success then [ResultCall(l, x, t.result)] else []))
  {
  }

  /** The same for error listeners, with ERROR in place of SUCCESS. */
  lemma LateErrorListener<R, E>(t: Task<R, E>, x: Executor, l: ListenerId)
    requires Valid(t)
    ensures var a := AddOnErrorListener(t, x, l);
      && (!t.finished ==> a.errorQueue == Some(t.errorQueue.value + [Entry(l, x)]) && a.calls == t.calls)
      && (t.finished ==>
            a.errorQueue.None? &&
            a.calls == t.calls + (if t.state == Error then [ErrorCall(l, x, t.error)] else []))
  {
  }

  /** cancel() on an unfinished task ends it CANCELLED with no listener run
      (both queues were emptied before doOnFinish) and the queues null. On a
      finished task it still raises the state to CANCELLED, then throws. */
  lemma CancelIsSilent<R, E>(t: Task<R, E>)
    requires Valid(t)
    ensures var (c, outcome) := Cancel(t);
      && c.state == Cancelled && c.finished
      && c.resultQueue.None? && c.errorQueue.None?
      && c.calls == t.calls
      && (outcome == Ok <==> !t.finished)
  {
  }

  /** execute() throws IllegalStateException exactly when the task is finished
      and then changes nothing; otherwise the state is at least RUNNING and the
      work has either run (current-thread executor) or is pending. */
  lemma ExecuteRule<R, E>(t: Task<R, E>, work: seq<FinisherCall<R, E>>)
    requires Valid(t)
    ensures var (e, outcome) := Execute(t, work);
      && (t.finished ==> e == t && outcome == IllegalState)
      && (!t.finished && t.workExecutor == Some(CurrentThread) ==>
            e == Finish(SetState(t, Running), work) && outcome == Ok)
      && (!t.finished && t.workExecutor != Some(CurrentThread) ==>
            e == SetState(t, Running).(pendingRuns := t.pendingRuns + 1) && outcome == Ok)
  {
  }

  /** setTimeout: a negative delay throws IllegalArgumentException and changes
      nothing; cancelling a previous watcher task that has already finished
      throws NullPointerException and changes nothing; otherwise the new
      callback, executor and watcher become the live ones and the state, the
      finished flag and the handed-out runnables stay as they were. On a valid
      unfinished task the live watcher has not fired (the one that fires
      finishes the task), so a non-negative delay is always accepted. */
  lemma SetTimeoutRule<R, E>(t: Task<R, E>, millis: int, x: Executor, cb: Option<CallbackId>)
    ensures millis < 0 ==> SetTimeout(t, millis, x, cb) == (t, IllegalArgument)
    ensures millis >= 0 ==>
      (SetTimeout(t, millis, x, cb).1 == Ok <==> !(t.liveWatcher.Some? && t.liveWatcher.value in t.fired))
    ensures SetTimeout(t, millis, x, cb).1 != Ok ==> SetTimeout(t, millis, x, cb).0 == t
    ensures SetTimeout(t, millis, x, cb).1 == Ok ==>
      var u := SetTimeout(t, millis, x, cb).0;
      && u.timeoutCallback == cb && u.timeoutExecutor == Some(x)
      && u.liveWatcher == Some(t.watchers)
      && u.state == t.state && u.finished == t.finished && u.calls == t.calls
    ensures Valid(t) && !t.finished && millis >= 0 ==> SetTimeout(t, millis, x, cb).1 == Ok
  {
  }

  /** A watcher elapsing on an unfinished task ends it in TIMEOUT (or a higher
      state already set) and hands only the timeout callback to mTimeoutExecutor. */
  lemma TimeoutFinishes<R, E>(t: Task<R, E>, w: nat)
    requires Valid(t) && !t.finished && t.state in {Init, Running}
    requires w < t.watchers && w !in t.fired
    ensures var d := TimeoutElapsed(t, w);
      d.finished && d.state == Timeout &&
      d.calls == t.calls + [TimeoutCall(t.timeoutExecutor.value, t.timeoutCallback)]
  {
  }

  /** setResult/setError on a finished task still overwrite the stored value
      and may raise the state, but dispatch nothing. */
  lemma LateCompletion<R, E>(t: Task<R, E>, r: R, e: E)
    requires t.finished
    ensures SetResult(t, r) == t.(result := Some(r), state := Raise(t.state, Success))
    ensures SetError(t, e) == t.(error := Some(e), state := Raise(t.state, Error))
  {
  }

  // ---------------------------------------------------------------------------
  // Every step keeps the task valid

  lemma DoOnFinishValid<R, E>(t: Task<R, E>)
    requires Valid(t) && (!t.finished ==> Code(Timeout) <= Code(t.state))
    ensures Valid(DoOnFinish(t))
  {
  }

  lemma SetResultValid<R, E>(t: Task<R, E>, r: R)
    requires Valid(t)
    ensures Valid(SetResult(t, r))
  {
    DoOnFinishValid(SetState(t.(result := Some(r)), Success));
  }

  lemma SetErrorValid<R, E>(t: Task<R, E>, e: E)
    requires Valid(t)
    ensures Valid(SetError(t, e))
  {
    DoOnFinishValid(SetState(t.(error := Some(e)), Error));
  }

  lemma {:induction false} FinishValid<R, E>(t: Task<R, E>, calls: seq<FinisherCall<R, E>>)
    requires Valid(t)
    ensures Valid(Finish(t, calls))
    ensures Finish(t, calls).pendingRuns == t.pendingRuns
  {
    if calls != [] {
      var front := Finish(t, calls[..|calls| - 1]);
      FinishValid(t, calls[..|calls| - 1]);
      match calls[|calls| - 1]
      case WithResult(r) => SetResultValid(front, r);
      case WithError(e) => SetErrorValid(front, e);
    }
  }

  lemma CancelValid<R, E>(t: Task<R, E>)
    requires Valid(t)
    ensures Valid(Cancel(t).0)
  {
  }

  lemma TimeoutElapsedValid<R, E>(t: Task<R, E>, w: nat)
    requires Valid(t) && w < t.watchers && w !in t.fired
    ensures Valid(TimeoutElapsed(t, w))
  {
    DoOnFinishValid(SetState(t, Timeout));
  }

  lemma ExecuteValid<R, E>(t: Task<R, E>, work: seq<FinisherCall<R, E>>)
    requires Valid(t)
    ensures Valid(Execute(t, work).0)
  {
    if !t.finished && t.workExecutor == Some(CurrentThread) {
      FinishValid(SetState(t, Running), work);
    }
  }

  lemma RunPendingWorkValid<R, E>(t: Task<R, E>, work: seq<FinisherCall<R, E>>)
    requires Valid(t) && t.pendingRuns > 0
    ensures Valid(RunPendingWork(t, work).0)
  {
    FinishValid(t.(pendingRuns := t.pendingRuns - 1), work);
  }
}
