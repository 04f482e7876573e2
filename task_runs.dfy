/** Runs of an ExecutableTask: any interleaving of its public methods, the
    executors running its work and its timeout watchers elapsing, each one
    atomic step. The lemmas here hold for every such run. */
module TaskRuns {
  import opened Common
  import opened TaskState
  import opened TaskModel

  /** One thing that can happen to a task. */
  datatype Event<R, E> =
    | ResultListenerAdded(executor: Executor, listener: ListenerId)
    | ErrorListenerAdded(executor: Executor, listener: ListenerId)
    | TimeoutArmed(millis: int, timeoutExecutor: Executor, callback: Option<CallbackId>)
    | WatcherElapsed(watcher: nat)
    | CancelCalled
    | ExecuteCalled
    | WorkRunByExecutor
    | FinisherCalled(call: FinisherCall<R, E>)

  /** The task after one event. An event that cannot happen in `t` (a watcher
      that was never armed or has already fired, a work runnable that was never
      queued) leaves it as it is; an exception leaves the fields as they were
      when it was thrown. `FinisherCalled` is a call on the finisher a work
      runnable was given, or equally a package-internal setResult / setError
      (as Tasks.forResult and forError make), so it may come in any state,
      even before execute. */
  function Step<R, E>(t: Task<R, E>, work: seq<FinisherCall<R, E>>, ev: Event<R, E>): Task<R, E>
  {
    match ev
    case ResultListenerAdded(x, l) => AddOnResultListener(t, x, l)
    case ErrorListenerAdded(x, l) => AddOnErrorListener(t, x, l)
    case TimeoutArmed(ms, x, cb) => SetTimeout(t, ms, x, cb).0
    case WatcherElapsed(w) => if w < t.watchers && w !in t.fired then TimeoutElapsed(t, w) else t
    case CancelCalled => Cancel(t).0
    case ExecuteCalled => Execute(t, work).0
    case WorkRunByExecutor => if t.pendingRuns > 0 then RunPendingWork(t, work).0 else t
    case FinisherCalled(c) => FinisherStep(t, c)
  }

  function Run<R, E>(t: Task<R, E>, work: seq<FinisherCall<R, E>>, evs: seq<Event<R, E>>): Task<R, E>
  {
    if evs == [] then t
    else Step(Run(t, work, evs[..|evs| - 1]), work, evs[|evs| - 1])
  }

  /** How many steps of the run found the task unfinished and left it finished:
      the number of doOnFinish calls that got past the `isFinished` guard. */
  function Finishes<R, E>(t: Task<R, E>, work: seq<FinisherCall<R, E>>, evs: seq<Event<R, E>>): nat
  {
    if evs == [] then 0
    else
      var before := Run(t, work, evs[..|evs| - 1]);
      Finishes(t, work, evs[..|evs| - 1])
        + (if !before.finished && Step(before, work, evs[|evs| - 1]).finished then 1 else 0)
  }

  /** What a step appends to the log of a finished task: only a listener added
      late whose kind matches the state. */
  function LateCalls<R, E>(t: Task<R, E>, ev: Event<R, E>): seq<Call<R, E>>
  {
    match ev
    case ResultListenerAdded(x, l) => if t.state == Success then [ResultCall(l, x, t.result)] else []
    case ErrorListenerAdded(x, l) => if t.state == Error then [ErrorCall(l, x, t.error)] else []
    case _ => []
  }

  lemma StepValid<R, E>(t: Task<R, E>, work: seq<FinisherCall<R, E>>, ev: Event<R, E>)
    requires Valid(t)
    ensures Valid(Step(t, work, ev))
  {
    match ev
    case WatcherElapsed(w) =>
      if w < t.watchers && w !in t.fired { TimeoutElapsedValid(t, w); }
    case CancelCalled => CancelValid(t);
    case ExecuteCalled => ExecuteValid(t, work);
    case WorkRunByExecutor =>
      if t.pendingRuns > 0 { RunPendingWorkValid(t, work); }
    case FinisherCalled(c) => FinishValid(t, [c]);
    case _ =>
  }

  lemma {:induction false} FinishGrows<R, E>(t: Task<R, E>, calls: seq<FinisherCall<R, E>>)
    ensures Code(t.state) <= Code(Finish(t, calls).state)
    ensures t.finished ==> Finish(t, calls).finished
    ensures t.calls <= Finish(t, calls).calls
  {
    if calls != [] {
      FinishGrows(t, calls[..|calls| - 1]);
    }
  }

  /** `s` is no earlier than `t`: state no lower, finished flag kept, log extended. */
  ghost predicate Grows<R, E>(t: Task<R, E>, s: Task<R, E>)
  {
    Code(t.state) <= Code(s.state) && (t.finished ==> s.finished) && t.calls <= s.calls
  }

  lemma DoOnFinishGrows<R, E>(t: Task<R, E>)
    ensures DoOnFinish(t).state == t.state && DoOnFinish(t).finished
    ensures t.calls <= DoOnFinish(t).calls
  {
  }

  lemma CancelGrows<R, E>(t: Task<R, E>, work: seq<FinisherCall<R, E>>)
    ensures Grows(t, Step(t, work, CancelCalled))
  {
    var raised := SetState(t, Cancelled);
    if raised.resultQueue.Some? && raised.errorQueue.Some? {
      DoOnFinishGrows(raised.(resultQueue := Some([]), errorQueue := Some([])));
    }
  }

  lemma FinisherStepGrows<R, E>(t: Task<R, E>, work: seq<FinisherCall<R, E>>, c: FinisherCall<R, E>)
    ensures Grows(t, Step(t, work, FinisherCalled(c)))
  {
    match c
    case WithResult(r) => DoOnFinishGrows(SetState(t.(result := Some(r)), Success));
    case WithError(e) => DoOnFinishGrows(SetState(t.(error := Some(e)), Error));
  }

  lemma WatcherGrows<R, E>(t: Task<R, E>, work: seq<FinisherCall<R, E>>, w: nat)
    ensures Grows(t, Step(t, work, WatcherElapsed(w)))
  {
    if w < t.watchers && w !in t.fired {
      DoOnFinishGrows(SetState(t, Timeout));
    }
  }

  lemma ExecuteGrows<R, E>(t: Task<R, E>, work: seq<FinisherCall<R, E>>)
    ensures Grows(t, Step(t, work, ExecuteCalled))
  {
    if !t.finished {
      FinishGrows(SetState(t, Running), work);
    }
  }

  lemma PendingWorkGrows<R, E>(t: Task<R, E>, work: seq<FinisherCall<R, E>>)
    ensures Grows(t, Step(t, work, WorkRunByExecutor))
  {
    if t.pendingRuns > 0 {
      FinishGrows(t.(pendingRuns := t.pendingRuns - 1), work);
    }
  }

  /** Adding a listener or arming a timeout never lowers anything. */
  lemma SetupGrows<R, E>(t: Task<R, E>, work: seq<FinisherCall<R, E>>, ev: Event<R, E>)
    requires ev.ResultListenerAdded? || ev.ErrorListenerAdded? || ev.TimeoutArmed?
    ensures Grows(t, Step(t, work, ev))
  {
  }

  /** No step lowers the state, un-finishes the task or takes back a runnable
      already handed to an executor. */
  lemma StepGrows<R, E>(t: Task<R, E>, work: seq<FinisherCall<R, E>>, ev: Event<R, E>)
    ensures Code(t.state) <= Code(Step(t, work, ev).state)
    ensures t.finished ==> Step(t, work, ev).finished
    ensures t.calls <= Step(t, work, ev).calls
  {
    match ev
    case WatcherElapsed(w) => WatcherGrows(t, work, w);
    case CancelCalled => CancelGrows(t, work);
    case FinisherCalled(c) => FinisherStepGrows(t, work, c);
    case ExecuteCalled => ExecuteGrows(t, work);
    case WorkRunByExecutor => PendingWorkGrows(t, work);
    case _ => SetupGrows(t, work, ev);
  }

  /** Once finished, a step appends to the log at most one runnable, and only
      for a listener added late whose kind matches the current state: the
      queued listeners are never dispatched a second time. */
  lemma StepAfterFinish<R, E>(t: Task<R, E>, work: seq<FinisherCall<R, E>>, ev: Event<R, E>)
    requires Valid(t) && t.finished
    ensures Step(t, work, ev).calls == t.calls + LateCalls(t, ev)
  {
    match ev
    case WorkRunByExecutor =>
    case FinisherCalled(c) =>
    case _ =>
  }

  lemma {:induction false} RunValid<R, E>(t: Task<R, E>, work: seq<FinisherCall<R, E>>, evs: seq<Event<R, E>>)
    requires Valid(t)
    ensures Valid(Run(t, work, evs))
  {
    if evs != [] {
      RunValid(t, work, evs[..|evs| - 1]);
      StepValid(Run(t, work, evs[..|evs| - 1]), work, evs[|evs| - 1]);
    }
  }

  /** Over a whole run, state and finished flag only move forward and the log
      only grows. */
  lemma {:induction false} RunGrows<R, E>(t: Task<R, E>, work: seq<FinisherCall<R, E>>, evs: seq<Event<R, E>>)
    ensures Code(t.state) <= Code(Run(t, work, evs).state)
    ensures t.finished ==> Run(t, work, evs).finished
    ensures t.calls <= Run(t, work, evs).calls
  {
    if evs != [] {
      RunGrows(t, work, evs[..|evs| - 1]);
      StepGrows(Run(t, work, evs[..|evs| - 1]), work, evs[|evs| - 1]);
    }
  }

  /** doOnFinish gets past its guard at most once in any run, and not at all
      if the task was already finished. */
  lemma {:induction false} FinishesAtMostOnce<R, E>(t: Task<R, E>, work: seq<FinisherCall<R, E>>, evs: seq<Event<R, E>>)
    ensures Finishes(t, work, evs) <= 1
    ensures Finishes(t, work, evs) == 1 ==> Run(t, work, evs).finished
    ensures t.finished ==> Finishes(t, work, evs) == 0
  {
    if evs != [] {
      var front := evs[..|evs| - 1];
      FinishesAtMostOnce(t, work, front);
      RunGrows(t, work, front);
      StepGrows(Run(t, work, front), work, evs[|evs| - 1]);
    }
  }
}
