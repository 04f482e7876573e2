/** BaseTask.java as values: the task's fields as a datatype and one function
    per method. Runnables posted to the main-thread Handler wait in `posted`
    until the looper runs them; `delivered` logs every listener invocation. */
module BaseTaskModel {
  import opened Common

  /** The AtomicInteger state: INIT 0, RUNNING 1, CANCELLED 2, FINISHED 3,
      overwritten by every set (no ordering between them). */
  datatype BaseState = Init | Running | Cancelled | Finished

  /** A runnable posted to the Handler by onFinish. The first two read the
      task's `error` / `result` field when they run; the last two carry the
      value they were posted with. */
  datatype Posted<R, E> =
    | DrainErrors
    | DrainResults
    | DrainErrorsWith(error: Option<E>)
    | DrainResultsWith(result: Option<R>)

  /** A listener called on the main thread with a value (None is null). */
  datatype Delivery<R, E> =
    | ResultDelivered(listener: ListenerId, result: Option<R>)
    | ErrorDelivered(listener: ListenerId, error: Option<E>)

  datatype Base<R, E> = Base(
    state: BaseState,
    result: Option<R>,
    error: Option<E>,
    resultQueue: Option<seq<ListenerId>>,
    errorQueue: Option<seq<ListenerId>>,
    executor: Option<Executor>,
    /** `executorService` is non-null: the task owns its single-thread executor. */
    ownsService: bool,
    /** How many times `executorService.shutdown()` has been called. */
    shutdowns: nat,
    handlerLive: bool,
    posted: seq<Posted<R, E>>,
    /** Work runnables handed to a deferring executor and not yet run. */
    pendingRuns: nat,
    /** How many times onExecution has been called. */
    runs: nat,
    delivered: seq<Delivery<R, E>>)

  predicate IsRunning<R, E>(b: Base<R, E>) { b.state == Running }
  predicate IsCancelled<R, E>(b: Base<R, E>) { b.state == Cancelled }
  predicate IsComplete<R, E>(b: Base<R, E>) { b.state == Cancelled || b.state == Finished }

  /** What every reachable task satisfies. */
  ghost predicate Valid<R, E>(b: Base<R, E>)
  {
    && (b.handlerLive <==> b.executor.Some?)
    && (b.handlerLive ==> b.posted == [])
    && (!b.handlerLive ==> IsComplete(b))
    && (b.state == Finished ==> !b.handlerLive)
    && (b.resultQueue.None? <==> b.errorQueue.None?)
    && (b.resultQueue.None? ==> !b.handlerLive && b.posted == [])
    && |b.posted| <= 1
    && (b.ownsService ==> b.handlerLive && b.shutdowns == 0)
    && b.shutdowns <= 1
    && b.runs + b.pendingRuns <= 1
    && (b.state == Init ==> b.runs + b.pendingRuns == 0)
  }

  /** A new task: empty queues, INIT, a live handler and the given executor,
      or (the no-argument constructor) a single-thread executor of its own. */
  function Initial<R, E>(executor: Executor, ownsService: bool): (b: Base<R, E>)
    ensures Valid(b) && b.state == Init && b.delivered == [] && b.posted == []
  {
    Base(Init, None, None, Some([]), Some([]), Some(executor), ownsService, 0, true, [], 0, 0, [])
  }

  /** addOnResultListener: a null listener is ignored; adding to the queue the
      posted runnable has dropped throws. */
  function AddOnResultListener<R, E>(b: Base<R, E>, listener: Option<ListenerId>): (Base<R, E>, Outcome)
  {
    match listener
    case None => (b, Ok)
    case Some(l) =>
      match b.resultQueue
      case None => (b, NullPointer)
      case Some(q) => (b.(resultQueue := Some(q + [l])), Ok)
  }

  /** addOnErrorListener: the same for the error queue. */
  function AddOnErrorListener<R, E>(b: Base<R, E>, listener: Option<ListenerId>): (Base<R, E>, Outcome)
  {
    match listener
    case None => (b, Ok)
    case Some(l) =>
      match b.errorQueue
      case None => (b, NullPointer)
      case Some(q) => (b.(errorQueue := Some(q + [l])), Ok)
  }

  function SetState<R, E>(b: Base<R, E>, s: BaseState): Base<R, E>
  {
    b.(state := s)
  }

  /** cancel(): set CANCELLED. */
  function Cancel<R, E>(b: Base<R, E>): Base<R, E>
  {
    SetState(b, Cancelled)
  }

  /** cancel(error): record the error, then cancel(). */
  function CancelWith<R, E>(b: Base<R, E>, e: E): Base<R, E>
  {
    Cancel(b.(error := Some(e)))
  }

  /** checkState: refuses a running task and a complete one. */
  function CheckState<R, E>(b: Base<R, E>): Outcome
  {
    if IsRunning(b) then IllegalState
    else if IsComplete(b) then IllegalState
    else Ok
  }

  /** The tail of onFinish once the guard is passed: FINISHED unless cancelled,
      post `runnable`, drop result, error, executor and handler, and shut the
      owned executor down. */
  function Conclude<R, E>(b: Base<R, E>, runnable: Posted<R, E>): Base<R, E>
  {
    var s := if !IsCancelled(b) then SetState(b, Finished) else b;
    s.(posted := s.posted + [runnable], result := None, error := None,
       executor := None, handlerLive := false, ownsService := false,
       shutdowns := s.shutdowns + if s.ownsService then 1 else 0)
  }

  /** onFinish(withError): ignored once complete; the runnable it posts reads
      the fields when the looper runs it. */
  function OnFinish<R, E>(b: Base<R, E>, withError: bool): Base<R, E>
  {
    if IsComplete(b) then b
    else Conclude(b, if withError then DrainErrors else DrainResults)
  }

  /** onPreExecute: a cancelled task goes to onFinish(true), any other to RUNNING. */
  function OnPreExecute<R, E>(b: Base<R, E>): Base<R, E>
  {
    if IsCancelled(b) then OnFinish(b, true) else SetState(b, Running)
  }

  /** ExecutionCallback.finishTaskWithResult */
  function FinishWithResult<R, E>(b: Base<R, E>, r: R): Base<R, E>
  {
    OnFinish(b.(result := Some(r)), false)
  }

  /** ExecutionCallback.finishTaskWithError: cancel() comes before
      onFinish(true), whose guard then sees a complete task. */
  function FinishWithError<R, E>(b: Base<R, E>, e: E): Base<R, E>
  {
    OnFinish(Cancel(b.(error := Some(e))), true)
  }

  function CallbackStep<R, E>(b: Base<R, E>, call: FinisherCall<R, E>): Base<R, E>
  {
    match call
    case WithResult(r) => FinishWithResult(b, r)
    case WithError(e) => FinishWithError(b, e)
  }

  /** The callback calls `calls`, made one after the other. */
  function Callback<R, E>(b: Base<R, E>, calls: seq<FinisherCall<R, E>>): Base<R, E>
  {
    if calls == [] then b
    else CallbackStep(Callback(b, calls[..|calls| - 1]), calls[|calls| - 1])
  }

  lemma CallbackSnoc<R, E>(b: Base<R, E>, calls: seq<FinisherCall<R, E>>, call: FinisherCall<R, E>)
    ensures Callback(b, calls + [call]) == CallbackStep(Callback(b, calls), call)
  {
    assert (calls + [call])[..|calls|] == calls;
  }

  /** The work runnable: onExecution with a new ExecutionCallback. */
  function RunWork<R, E>(b: Base<R, E>, work: seq<FinisherCall<R, E>>): Base<R, E>
  {
    Callback(b.(runs := b.runs + 1), work)
  }

  /** execute(): checkState, onPreExecute, then hand the work runnable to the
      executor, which runs it now only if it is the current-thread executor. */
  function Execute<R, E>(b: Base<R, E>, work: seq<FinisherCall<R, E>>): (Base<R, E>, Outcome)
  {
    var check := CheckState(b);
    if check != Ok then (b, check)
    else
      var pre := OnPreExecute(b);
      match pre.executor
      case None => (pre, NullPointer)
      case Some(x) =>
        if x == CurrentThread then (RunWork(pre, work), Ok)
        else (pre.(pendingRuns := pre.pendingRuns + 1), Ok)
  }

  /** A deferring executor runs the task's work runnable. */
  function RunPendingWork<R, E>(b: Base<R, E>, work: seq<FinisherCall<R, E>>): Base<R, E>
    requires b.pendingRuns > 0
  {
    RunWork(b.(pendingRuns := b.pendingRuns - 1), work)
  }

  /** The listener invocations of polling `q` to exhaustion with value `v`. */
  function ResultDeliveries<R, E>(q: seq<ListenerId>, v: Option<R>): (ds: seq<Delivery<R, E>>)
    ensures |ds| == |q|
    ensures forall i :: 0 <= i < |q| ==> ds[i] == ResultDelivered(q[i], v)
  {
    if q == [] then [] else ResultDeliveries(q[..|q| - 1], v) + [ResultDelivered(q[|q| - 1], v)]
  }

  function ErrorDeliveries<R, E>(q: seq<ListenerId>, v: Option<E>): (ds: seq<Delivery<R, E>>)
    ensures |ds| == |q|
    ensures forall i :: 0 <= i < |q| ==> ds[i] == ErrorDelivered(q[i], v)
  {
    if q == [] then [] else ErrorDeliveries(q[..|q| - 1], v) + [ErrorDelivered(q[|q| - 1], v)]
  }

  /** A drain runnable: call every result listener with `v`, then drop both
      queues. A queue already dropped throws. */
  function DrainResultsOf<R, E>(b: Base<R, E>, v: Option<R>): (Base<R, E>, Outcome)
  {
    match b.resultQueue
    case None => (b, NullPointer)
    case Some(q) =>
      (b.(resultQueue := None, errorQueue := None, delivered := b.delivered + ResultDeliveries(q, v)), Ok)
  }

  function DrainErrorsOf<R, E>(b: Base<R, E>, v: Option<E>): (Base<R, E>, Outcome)
  {
    match b.errorQueue
    case None => (b, NullPointer)
    case Some(q) =>
      (b.(resultQueue := None, errorQueue := None, delivered := b.delivered + ErrorDeliveries(q, v)), Ok)
  }

  /** The main looper runs the oldest posted runnable. */
  function RunPosted<R, E>(b: Base<R, E>): (Base<R, E>, Outcome)
    requires b.posted != []
  {
    var rest := b.(posted := b.posted[1..]);
    match b.posted[0]
    case DrainErrors => DrainErrorsOf(rest, rest.error)
    case DrainResults => DrainResultsOf(rest, rest.result)
    case DrainErrorsWith(v) => DrainErrorsOf(rest, v)
    case DrainResultsWith(v) => DrainResultsOf(rest, v)
  }

  // ---------------------------------------------------------------------------
  // Properties of single steps

  /** checkState lets through exactly the tasks in INIT. */
  lemma CheckStateRule<R, E>(b: Base<R, E>)
    ensures CheckState(b) == Ok <==> b.state == Init
    ensures CheckState(b) != Ok ==> CheckState(b) == IllegalState
  {
  }

  /** execute() throws on a running or complete task and changes nothing;
      otherwise the task is RUNNING and its work has run (current thread) or
      waits for its executor. */
  lemma ExecuteRule<R, E>(b: Base<R, E>, work: seq<FinisherCall<R, E>>)
    requires Valid(b)
    ensures var (e, outcome) := Execute(b, work);
      && (b.state != Init ==> e == b && outcome == IllegalState)
      && (b.state == Init && b.executor == Some(CurrentThread) ==>
            e == Callback(b.(state := Running, runs := 1), work) && outcome == Ok)
      && (b.state == Init && b.executor != Some(CurrentThread) ==>
            e == b.(state := Running, pendingRuns := 1) && outcome == Ok)
  {
  }

  /** onFinish does nothing to a complete task; to any other it posts exactly
      one runnable, marks it FINISHED and releases executor and handler,
      shutting down the executor it owns. */
  lemma OnFinishOnce<R, E>(b: Base<R, E>, withError: bool)
    requires Valid(b)
    ensures IsComplete(b) ==> OnFinish(b, withError) == b
    ensures !IsComplete(b) ==>
      var f := OnFinish(b, withError);
      && f.state == Finished && |f.posted| == 1
      && f.posted[0] == (if withError then DrainErrors else DrainResults)
      && f.result.None? && f.error.None? && f.executor.None? && !f.handlerLive
      && f.shutdowns == b.shutdowns + (if b.ownsService then 1 else 0) && !f.ownsService
      && f.resultQueue == b.resultQueue && f.errorQueue == b.errorQueue && f.delivered == b.delivered
  {
  }

  /** A null listener is never queued; a listener added before the posted
      runnable has run is queued behind the others, and one added after it
      throws. */
  lemma AddListenerRule<R, E>(b: Base<R, E>, l: ListenerId)
    requires Valid(b)
    ensures AddOnResultListener(b, None) == (b, Ok) && AddOnErrorListener(b, None) == (b, Ok)
    ensures b.resultQueue.Some? ==>
      AddOnResultListener(b, Some(l)) == (b.(resultQueue := Some(b.resultQueue.value + [l])), Ok)
    ensures b.errorQueue.Some? ==>
      AddOnErrorListener(b, Some(l)) == (b.(errorQueue := Some(b.errorQueue.value + [l])), Ok)
    ensures b.resultQueue.None? ==>
      AddOnResultListener(b, Some(l)) == (b, NullPointer) && AddOnErrorListener(b, Some(l)) == (b, NullPointer)
  {
  }

  /** finishTaskWithError as written: the error is stored and the task is
      CANCELLED, but nothing is posted, executor and handler are kept, and an
      owned executor is never shut down. */
  lemma FinishWithErrorIsSilent<R, E>(b: Base<R, E>, e: E)
    ensures FinishWithError(b, e) == b.(error := Some(e), state := Cancelled)
  {
  }

  /** finishTaskWithResult as written: the posted runnable reads `result` after
      onFinish has nulled it, so every queued result listener is called with
      null. */
  lemma ResultListenersGetNull<R, E>(b: Base<R, E>, r: R)
    requires Valid(b) && !IsComplete(b)
    ensures var f := FinishWithResult(b, r);
      && f.posted == [DrainResults]
      && RunPosted(f) ==
           (f.(posted := [], resultQueue := None, errorQueue := None,
               delivered := b.delivered + ResultDeliveries(b.resultQueue.value, None)), Ok)
  {
    var f := FinishWithResult(b, r);
    assert f.posted[1..] == [];
  }

  // ---------------------------------------------------------------------------
  // Every step keeps the task valid

  lemma OnFinishValid<R, E>(b: Base<R, E>, withError: bool)
    requires Valid(b)
    ensures Valid(OnFinish(b, withError))
  {
    OnFinishOnce(b, withError);
  }

  lemma FinishWithResultValid<R, E>(b: Base<R, E>, r: R)
    requires Valid(b)
    ensures Valid(FinishWithResult(b, r))
  {
  }

  lemma {:induction false} CallbackValid<R, E>(b: Base<R, E>, calls: seq<FinisherCall<R, E>>)
    requires Valid(b)
    ensures Valid(Callback(b, calls))
    ensures Callback(b, calls).runs == b.runs && Callback(b, calls).pendingRuns == b.pendingRuns
    ensures IsComplete(b) ==> IsComplete(Callback(b, calls))
    ensures b.state != Init ==> Callback(b, calls).state != Init
    ensures b.state == Running && calls != [] ==> IsComplete(Callback(b, calls))
  {
    if calls != [] {
      CallbackValid(b, calls[..|calls| - 1]);
      CallbackStepValid(Callback(b, calls[..|calls| - 1]), calls[|calls| - 1]);
    }
  }

  /** One call on the callback keeps the task valid, leaves its run counts
      alone and leaves a task past INIT complete or still past INIT. */
  lemma CallbackStepValid<R, E>(b: Base<R, E>, call: FinisherCall<R, E>)
    requires Valid(b)
    ensures Valid(CallbackStep(b, call))
    ensures CallbackStep(b, call).runs == b.runs && CallbackStep(b, call).pendingRuns == b.pendingRuns
    ensures IsComplete(b) ==> IsComplete(CallbackStep(b, call))
    ensures b.state != Init ==> CallbackStep(b, call).state != Init
    ensures b.state == Running ==> IsComplete(CallbackStep(b, call))
  {
  }

  lemma ExecuteValid<R, E>(b: Base<R, E>, work: seq<FinisherCall<R, E>>)
    requires Valid(b)
    ensures Valid(Execute(b, work).0)
    ensures Execute(b, work).1 == Ok ==> b.state == Init && Execute(b, work).0.state != Init
  {
    if b.state == Init {
      CallbackValid(b.(state := Running, runs := 1), work);
    }
  }

  lemma RunPendingWorkValid<R, E>(b: Base<R, E>, work: seq<FinisherCall<R, E>>)
    requires Valid(b) && b.pendingRuns > 0
    ensures Valid(RunPendingWork(b, work))
  {
    CallbackValid(b.(pendingRuns := b.pendingRuns - 1, runs := b.runs + 1), work);
  }

  lemma RunPostedValid<R, E>(b: Base<R, E>)
    requires Valid(b) && b.posted != []
    ensures Valid(RunPosted(b).0)
    ensures RunPosted(b).1 == Ok
  {
  }
}
