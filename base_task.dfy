/** The BaseTask class (BaseTask.java): its fields are updated in place, and
    every method is proved to leave them as the matching function of
    BaseTaskModel says. */
module BaseTasks {
  import opened Common
  import opened BaseTaskModel

  class BaseTask<R, E> {
    /** What the subclass's onExecution does with the callback it is handed. */
    const work: seq<FinisherCall<R, E>>

    var state: BaseState
    var result: Option<R>
    var error: Option<E>
    var onResultListeners: Option<seq<ListenerId>>
    var onErrorListeners: Option<seq<ListenerId>>
    var executor: Option<Executor>
    var ownsService: bool
    var shutdowns: nat
    var handlerLive: bool
    /** The runnables posted to the main-thread Handler, oldest first. */
    var posted: seq<Posted<R, E>>
    var pendingRuns: nat
    var runs: nat
    /** The listener invocations made on the main thread, in order. */
    var delivered: seq<Delivery<R, E>>

    function Model(): Base<R, E>
      reads this
    {
      Base(state, result, error, onResultListeners, onErrorListeners, executor, ownsService,
           shutdowns, handlerLive, posted, pendingRuns, runs, delivered)
    }

    ghost predicate Valid()
      reads this
    {
      BaseTaskModel.Valid(Model())
    }

    /** BaseTask(executor) */
    constructor (executor: Executor, work: seq<FinisherCall<R, E>>)
      ensures Valid() && Model() == Initial(executor, false) && this.work == work
    {
      this.work := work;
      state := Init;
      result, error := None, None;
      onResultListeners, onErrorListeners := Some([]), Some([]);
      this.executor := Some(executor);
      ownsService, shutdowns, handlerLive := false, 0, true;
      posted, pendingRuns, runs, delivered := [], 0, 0, [];
    }

    /** BaseTask(): a new single-thread executor, here the pool `worker`,
        which the task owns. */
    constructor WithOwnExecutor(worker: nat, work: seq<FinisherCall<R, E>>)
      ensures Valid() && Model() == Initial(Background(worker), true) && this.work == work
    {
      this.work := work;
      state := Init;
      result, error := None, None;
      onResultListeners, onErrorListeners := Some([]), Some([]);
      executor := Some(Background(worker));
      ownsService, shutdowns, handlerLive := true, 0, true;
      posted, pendingRuns, runs, delivered := [], 0, 0, [];
    }

    predicate IsRunning() reads this { state == Running }
    predicate IsCancelled() reads this { state == Cancelled }
    predicate IsComplete() reads this { state == Cancelled || state == Finished }

    method SetState(s: BaseState)
      modifies this
      ensures Model() == BaseTaskModel.SetState(old(Model()), s)
    {
      state := s;
    }

    method AddOnResultListener(listener: Option<ListenerId>) returns (outcome: Outcome)
      requires Valid()
      modifies this
      ensures Valid() && (Model(), outcome) == BaseTaskModel.AddOnResultListener(old(Model()), listener)
    {
      outcome := Ok;
      if listener.Some? {
        if onResultListeners.None? {
          return NullPointer;
        }
        onResultListeners := Some(onResultListeners.value + [listener.value]);
      }
    }

    method AddOnErrorListener(listener: Option<ListenerId>) returns (outcome: Outcome)
      requires Valid()
      modifies this
      ensures Valid() && (Model(), outcome) == BaseTaskModel.AddOnErrorListener(old(Model()), listener)
    {
      outcome := Ok;
      if listener.Some? {
        if onErrorListeners.None? {
          return NullPointer;
        }
        onErrorListeners := Some(onErrorListeners.value + [listener.value]);
      }
    }

    method Cancel()
      requires Valid()
      modifies this
      ensures Valid() && Model() == BaseTaskModel.Cancel(old(Model()))
    {
      SetState(Cancelled);
    }

    method CancelWith(e: E)
      requires Valid()
      modifies this
      ensures Valid() && Model() == BaseTaskModel.CancelWith(old(Model()), e)
    {
      error := Some(e);
      Cancel();
    }

    method CheckState() returns (outcome: Outcome)
      ensures outcome == BaseTaskModel.CheckState(Model())
    {
      if IsRunning() {
        return IllegalState;
      }
      if IsComplete() {
        return IllegalState;
      }
      return Ok;
    }

    method OnFinish(withError: bool)
      requires Valid()
      modifies this
      ensures Valid() && Model() == BaseTaskModel.OnFinish(old(Model()), withError)
    {
      OnFinishValid(Model(), withError);
      if IsComplete() {
        return;
      }
      if !IsCancelled() {
        SetState(Finished);
      }
      posted := posted + [if withError then DrainErrors else DrainResults];
      result, error := None, None;
      executor := None;
      handlerLive := false;
      if ownsService {
        shutdowns := shutdowns + 1;
        ownsService := false;
      }
    }

    /** Called by execute() once checkState has passed; a task already
        FINISHED is never handed to it. */
    method OnPreExecute()
      requires Valid() && state != Finished
      modifies this
      ensures Valid() && Model() == BaseTaskModel.OnPreExecute(old(Model()))
    {
      if IsCancelled() {
        OnFinish(true);
        return;
      }
      SetState(Running);
    }

    method FinishWithResult(r: R)
      requires Valid()
      modifies this
      ensures Valid() && Model() == BaseTaskModel.FinishWithResult(old(Model()), r)
    {
      result := Some(r);
      OnFinish(false);
    }

    method FinishWithError(e: E)
      requires Valid()
      modifies this
      ensures Valid() && Model() == BaseTaskModel.FinishWithError(old(Model()), e)
    {
      error := Some(e);
      Cancel();
      OnFinish(true);
    }

    method CallbackCall(call: FinisherCall<R, E>)
      requires Valid()
      modifies this
      ensures Valid() && Model() == CallbackStep(old(Model()), call)
    {
      match call {
        case WithResult(r) => FinishWithResult(r);
        case WithError(e) => FinishWithError(e);
      }
    }

    /** The work runnable: onExecution with a new callback, whose calls are
        the work's, one after the other. */
    method RunWork()
      requires Valid() && runs + pendingRuns == 0 && state != Init
      modifies this
      ensures Valid() && Model() == BaseTaskModel.RunWork(old(Model()), work)
    {
      runs := runs + 1;
      ghost var start := Model();
      var i := 0;
      while i < |work|
        invariant 0 <= i <= |work|
        invariant Valid() && Model() == Callback(start, work[..i])
        decreases |work| - i
      {
        CallbackSnoc(start, work[..i], work[i]);
        assert work[..i + 1] == work[..i] + [work[i]];
        CallbackCall(work[i]);
        i := i + 1;
      }
      assert work[..i] == work;
    }

    method Execute() returns (outcome: Outcome)
      requires Valid()
      modifies this
      ensures Valid() && (Model(), outcome) == BaseTaskModel.Execute(old(Model()), work)
    {
      outcome := CheckState();
      if outcome != Ok {
        return;
      }
      OnPreExecute();
      if executor.None? {
        return NullPointer;
      }
      if executor.value == CurrentThread {
        RunWork();
      } else {
        pendingRuns := pendingRuns + 1;
      }
    }

    method RunPendingWork()
      requires Valid() && pendingRuns > 0
      modifies this
      ensures Valid() && Model() == BaseTaskModel.RunPendingWork(old(Model()), work)
    {
      pendingRuns := pendingRuns - 1;
      RunWork();
    }

    /** A drain runnable: poll the result queue until it is empty, calling
        each listener with `v`, then drop both queues. Nothing else runs while
        it drains, so the loop polls a local copy and stores the queue once. */
    method DrainResultQueue(v: Option<R>) returns (outcome: Outcome)
      modifies this
      ensures (Model(), outcome) == DrainResultsOf(old(Model()), v)
    {
      if onResultListeners.None? {
        return NullPointer;
      }
      var pending := onResultListeners.value;
      var log := delivered;
      ghost var k := 0;
      while pending != []
        invariant 0 <= k <= |onResultListeners.value|
        invariant pending == onResultListeners.value[k..]
        invariant log == delivered + ResultDeliveries(onResultListeners.value[..k], v)
        decreases |pending|
      {
        var listener := pending[0];
        pending := pending[1..];
        log := log + [ResultDelivered(listener, v)];
        assert onResultListeners.value[..k + 1][..k] == onResultListeners.value[..k];
        k := k + 1;
      }
      assert onResultListeners.value[..k] == onResultListeners.value;
      delivered := log;
      onResultListeners, onErrorListeners := None, None;
      outcome := Ok;
    }

    /** The same over the error queue. */
    method DrainErrorQueue(v: Option<E>) returns (outcome: Outcome)
      modifies this
      ensures (Model(), outcome) == DrainErrorsOf(old(Model()), v)
    {
      if onErrorListeners.None? {
        return NullPointer;
      }
      var pending := onErrorListeners.value;
      var log := delivered;
      ghost var k := 0;
      while pending != []
        invariant 0 <= k <= |onErrorListeners.value|
        invariant pending == onErrorListeners.value[k..]
        invariant log == delivered + ErrorDeliveries(onErrorListeners.value[..k], v)
        decreases |pending|
      {
        var listener := pending[0];
        pending := pending[1..];
        log := log + [ErrorDelivered(listener, v)];
        assert onErrorListeners.value[..k + 1][..k] == onErrorListeners.value[..k];
        k := k + 1;
      }
      assert onErrorListeners.value[..k] == onErrorListeners.value;
      delivered := log;
      onResultListeners, onErrorListeners := None, None;
      outcome := Ok;
    }

    /** The main looper runs the oldest posted runnable. */
    method RunPosted() returns (outcome: Outcome)
      requires Valid() && posted != []
      modifies this
      ensures Valid() && (Model(), outcome) == BaseTaskModel.RunPosted(old(Model()))
    {
      RunPostedValid(Model());
      var runnable := posted[0];
      posted := posted[1..];
      match runnable {
        case DrainErrors => outcome := DrainErrorQueue(error);
        case DrainResults => outcome := DrainResultQueue(result);
        case DrainErrorsWith(v) => outcome := DrainErrorQueue(v);
        case DrainResultsWith(v) => outcome := DrainResultQueue(v);
      }
    }
  }
}
