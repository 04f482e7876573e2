/** Whole runs of a BaseTask: any interleaving of calls from its user, its
    subclass, its executor and the main looper. */
module BaseTaskRuns {
  import opened Common
  import opened BaseTaskModel

  datatype BaseEvent<R, E> =
    | ResultListenerAdded(listener: Option<ListenerId>)
    | ErrorListenerAdded(listener: Option<ListenerId>)
    | CancelledWith(error: E)
    | ExecuteCalled
    | WorkRunByExecutor
    /** A call on an ExecutionCallback the work has been handed (the work may
        keep it and call it later). */
    | CallbackCalled(call: FinisherCall<R, E>)
    | PostedRunnableRun

  /** One event; one that cannot happen yet (nothing pending, no callback
      handed out, nothing posted) leaves the task as it is. */
  function Step<R, E>(b: Base<R, E>, work: seq<FinisherCall<R, E>>, ev: BaseEvent<R, E>): Base<R, E>
  {
    match ev
    case ResultListenerAdded(l) => AddOnResultListener(b, l).0
    case ErrorListenerAdded(l) => AddOnErrorListener(b, l).0
    case CancelledWith(e) => CancelWith(b, e)
    case ExecuteCalled => Execute(b, work).0
    case WorkRunByExecutor => if b.pendingRuns > 0 then RunPendingWork(b, work) else b
    case CallbackCalled(c) => if b.runs > 0 then CallbackStep(b, c) else b
    case PostedRunnableRun => if b.posted != [] then RunPosted(b).0 else b
  }

  function Run<R, E>(b: Base<R, E>, work: seq<FinisherCall<R, E>>, evs: seq<BaseEvent<R, E>>): Base<R, E>
  {
    if evs == [] then b else Step(Run(b, work, evs[..|evs| - 1]), work, evs[|evs| - 1])
  }

  lemma StepValid<R, E>(b: Base<R, E>, work: seq<FinisherCall<R, E>>, ev: BaseEvent<R, E>)
    requires Valid(b)
    ensures Valid(Step(b, work, ev))
  {
    match ev
    case ExecuteCalled => ExecuteValid(b, work);
    case WorkRunByExecutor => if b.pendingRuns > 0 { RunPendingWorkValid(b, work); }
    case CallbackCalled(c) => CallbackValid(b, [c]); assert [c][..0] == [];
    case PostedRunnableRun => if b.posted != [] { RunPostedValid(b); }
    case _ =>
  }

  lemma {:induction false} RunValid<R, E>(b: Base<R, E>, work: seq<FinisherCall<R, E>>, evs: seq<BaseEvent<R, E>>)
    requires Valid(b)
    ensures Valid(Run(b, work, evs))
  {
    if evs != [] {
      RunValid(b, work, evs[..|evs| - 1]);
      StepValid(Run(b, work, evs[..|evs| - 1]), work, evs[|evs| - 1]);
    }
  }

  /** Whatever happens, a task's work runs at most once and the executor it
      owns is shut down at most once. */
  lemma AtMostOnce<R, E>(x: Executor, owns: bool, work: seq<FinisherCall<R, E>>, evs: seq<BaseEvent<R, E>>)
    ensures Run(Initial<R, E>(x, owns), work, evs).runs <= 1
    ensures Run(Initial<R, E>(x, owns), work, evs).shutdowns <= (if owns then 1 else 0)
  {
    RunValid(Initial<R, E>(x, owns), work, evs);
    RunShutdowns(Initial<R, E>(x, owns), work, evs);
  }

  lemma {:induction false} RunShutdowns<R, E>(b: Base<R, E>, work: seq<FinisherCall<R, E>>, evs: seq<BaseEvent<R, E>>)
    requires Valid(b)
    ensures var e := Run(b, work, evs);
      e.shutdowns + (if e.ownsService then 1 else 0) <= b.shutdowns + (if b.ownsService then 1 else 0)
  {
    if evs != [] {
      var front := evs[..|evs| - 1];
      RunShutdowns(b, work, front);
      RunValid(b, work, front);
      StepShutdowns(Run(b, work, front), work, evs[|evs| - 1]);
    }
  }

  lemma {:induction false} CallbackShutdowns<R, E>(b: Base<R, E>, calls: seq<FinisherCall<R, E>>)
    requires Valid(b)
    ensures var e := Callback(b, calls);
      e.shutdowns + (if e.ownsService then 1 else 0) == b.shutdowns + (if b.ownsService then 1 else 0)
  {
    if calls != [] {
      CallbackShutdowns(b, calls[..|calls| - 1]);
      CallbackValid(b, calls[..|calls| - 1]);
    }
  }

  /** The executor-owned count (shut-downs done plus one still owed) never rises. */
  ghost predicate ShutdownsKept<R, E>(b: Base<R, E>, e: Base<R, E>)
  {
    e.shutdowns + (if e.ownsService then 1 else 0) <= b.shutdowns + (if b.ownsService then 1 else 0)
  }

  lemma ExecuteShutdowns<R, E>(b: Base<R, E>, work: seq<FinisherCall<R, E>>)
    requires Valid(b)
    ensures ShutdownsKept(b, Step(b, work, ExecuteCalled))
  {
    if b.state == Init { CallbackShutdowns(b.(state := Running, runs := 1), work); }
  }

  lemma PendingWorkShutdowns<R, E>(b: Base<R, E>, work: seq<FinisherCall<R, E>>)
    requires Valid(b)
    ensures ShutdownsKept(b, Step(b, work, WorkRunByExecutor))
  {
    if b.pendingRuns > 0 { CallbackShutdowns(b.(pendingRuns := b.pendingRuns - 1, runs := b.runs + 1), work); }
  }

  lemma CallbackCalledShutdowns<R, E>(b: Base<R, E>, work: seq<FinisherCall<R, E>>, c: FinisherCall<R, E>)
    requires Valid(b)
    ensures ShutdownsKept(b, Step(b, work, CallbackCalled(c)))
  {
    if b.runs > 0 {
      CallbackShutdowns(b, [c]);
      assert [c][..0] == [];
    }
  }

  lemma StepShutdowns<R, E>(b: Base<R, E>, work: seq<FinisherCall<R, E>>, ev: BaseEvent<R, E>)
    requires Valid(b)
    ensures var e := Step(b, work, ev);
      e.shutdowns + (if e.ownsService then 1 else 0) <= b.shutdowns + (if b.ownsService then 1 else 0)
  {
    match ev
    case ExecuteCalled => ExecuteShutdowns(b, work);
    case WorkRunByExecutor => PendingWorkShutdowns(b, work);
    case CallbackCalled(c) => CallbackCalledShutdowns(b, work, c);
    case _ => OtherStepShutdowns(b, work, ev);
  }

  lemma OtherStepShutdowns<R, E>(b: Base<R, E>, work: seq<FinisherCall<R, E>>, ev: BaseEvent<R, E>)
    requires Valid(b)
    requires !ev.ExecuteCalled? && !ev.WorkRunByExecutor? && !ev.CallbackCalled?
    ensures ShutdownsKept(b, Step(b, work, ev))
  {
  }

  // ---------------------------------------------------------------------------
  // As written, error listeners are never called.

  /** Nothing posted drains the error queue and no error listener has been called. */
  ghost predicate NoErrorPath<R, E>(b: Base<R, E>)
  {
    && (forall i :: 0 <= i < |b.posted| ==> b.posted[i] == DrainResults)
    && (forall i :: 0 <= i < |b.delivered| ==> b.delivered[i].ResultDelivered?)
  }

  lemma {:induction false} CallbackNoErrorPath<R, E>(b: Base<R, E>, calls: seq<FinisherCall<R, E>>)
    requires Valid(b) && NoErrorPath(b)
    ensures NoErrorPath(Callback(b, calls))
  {
    if calls != [] {
      CallbackNoErrorPath(b, calls[..|calls| - 1]);
      CallbackValid(b, calls[..|calls| - 1]);
    }
  }

  lemma ExecuteNoErrorPath<R, E>(b: Base<R, E>, work: seq<FinisherCall<R, E>>)
    requires Valid(b) && NoErrorPath(b)
    ensures NoErrorPath(Step(b, work, ExecuteCalled))
  {
    if b.state == Init { CallbackNoErrorPath(b.(state := Running, runs := 1), work); }
  }

  lemma PendingWorkNoErrorPath<R, E>(b: Base<R, E>, work: seq<FinisherCall<R, E>>)
    requires Valid(b) && NoErrorPath(b)
    ensures NoErrorPath(Step(b, work, WorkRunByExecutor))
  {
    if b.pendingRuns > 0 { CallbackNoErrorPath(b.(pendingRuns := b.pendingRuns - 1, runs := b.runs + 1), work); }
  }

  lemma CallbackCalledNoErrorPath<R, E>(b: Base<R, E>, work: seq<FinisherCall<R, E>>, c: FinisherCall<R, E>)
    requires Valid(b) && NoErrorPath(b)
    ensures NoErrorPath(Step(b, work, CallbackCalled(c)))
  {
    if b.runs > 0 {
      CallbackNoErrorPath(b, [c]);
      assert [c][..0] == [];
    }
  }

  lemma PostedNoErrorPath<R, E>(b: Base<R, E>, work: seq<FinisherCall<R, E>>)
    requires Valid(b) && NoErrorPath(b)
    ensures NoErrorPath(Step(b, work, PostedRunnableRun))
  {
    if b.posted != [] {
      assert b.posted[0] == DrainResults;
    }
  }

  lemma OtherStepNoErrorPath<R, E>(b: Base<R, E>, work: seq<FinisherCall<R, E>>, ev: BaseEvent<R, E>)
    requires Valid(b) && NoErrorPath(b)
    requires ev.ResultListenerAdded? || ev.ErrorListenerAdded? || ev.CancelledWith?
    ensures NoErrorPath(Step(b, work, ev))
  {
  }

  lemma StepNoErrorPath<R, E>(b: Base<R, E>, work: seq<FinisherCall<R, E>>, ev: BaseEvent<R, E>)
    requires Valid(b) && NoErrorPath(b)
    ensures NoErrorPath(Step(b, work, ev))
  {
    match ev
    case ExecuteCalled => ExecuteNoErrorPath(b, work);
    case WorkRunByExecutor => PendingWorkNoErrorPath(b, work);
    case CallbackCalled(c) => CallbackCalledNoErrorPath(b, work, c);
    case PostedRunnableRun => PostedNoErrorPath(b, work);
    case _ => OtherStepNoErrorPath(b, work, ev);
  }

  lemma {:induction false} RunNoErrorPath<R, E>(b: Base<R, E>, work: seq<FinisherCall<R, E>>, evs: seq<BaseEvent<R, E>>)
    requires Valid(b) && NoErrorPath(b)
    ensures NoErrorPath(Run(b, work, evs))
  {
    if evs != [] {
      RunNoErrorPath(b, work, evs[..|evs| - 1]);
      RunValid(b, work, evs[..|evs| - 1]);
      StepNoErrorPath(Run(b, work, evs[..|evs| - 1]), work, evs[|evs| - 1]);
    }
  }

  /** As written, no run of a new task ever calls one of its error listeners,
      whatever its work does and whenever it fails. */
  lemma ErrorListenersNeverCalled<R, E>(x: Executor, owns: bool, work: seq<FinisherCall<R, E>>, evs: seq<BaseEvent<R, E>>, i: nat)
    requires i < |Run(Initial<R, E>(x, owns), work, evs).delivered|
    ensures Run(Initial<R, E>(x, owns), work, evs).delivered[i].ResultDelivered?
  {
    RunNoErrorPath(Initial<R, E>(x, owns), work, evs);
  }
}
