/** Three places where ExecutableTask.java does not do what it evidently
    means to: each as written (in TaskModel) with a lemma that exhibits it,
    and a corrected step with the intended property proved. */
module TaskFindings {
  import opened Common
  import opened TaskState
  import opened TaskModel
  import opened TaskRuns

  // ---------------------------------------------------------------------------
  // As written

  /** cancel() on a finished task raises the state to CANCELLED (a successful
      task stops reporting success) and then throws NullPointerException,
      because nullObjects has already dropped the queues it clears. */
  lemma CancelAfterFinishThrows<R, E>(t: Task<R, E>)
    requires Valid(t) && t.finished
    ensures Cancel(t) == (t.(state := Cancelled), NullPointer)
  {
  }

  /** A work that calls withResult and then withError on its finisher, run by
      a background executor: the queued result listener has been handed the
      result, yet the task then reports ERROR and an error listener added
      afterwards is handed the late error as well. */
  lemma LateErrorMixesOutcomes<R, E>(r: R, e: E)
    ensures var work := [WithResult(r), WithError(e)];
      var evs := [ResultListenerAdded(MainThread, 1), ExecuteCalled, WorkRunByExecutor,
                  ErrorListenerAdded(MainThread, 2)];
      var t := Run(Initial<R, E>(Background(0)), work, evs);
      t.state == Error &&
      t.calls == [ResultCall(1, MainThread, Some(r)), ErrorCall(2, MainThread, Some(e))]
  {
    var t0 := Initial<R, E>(Background(0));
    var work: seq<FinisherCall<R, E>> := [WithResult(r), WithError(e)];
    var a3: Event<R, E> := WorkRunByExecutor;
    var a4: Event<R, E> := ErrorListenerAdded(MainThread, 2);
    var front: seq<Event<R, E>> := [ResultListenerAdded(MainThread, 1), ExecuteCalled];
    LateErrorSetup(r, e);
    var t2 := Run(t0, work, front);
    LateErrorTail(t2, r, e);
    RunSnoc(t0, work, front, a3);
    RunSnoc(t0, work, front + [a3], a4);
    assert front + [a3] + [a4] == [ResultListenerAdded(MainThread, 1), ExecuteCalled, a3, a4];
  }

  /** The executor runs the work, then an error listener is added. */
  lemma LateErrorTail<R, E>(t2: Task<R, E>, r: R, e: E)
    requires t2.resultQueue == Some([Entry(1, MainThread)]) && t2.errorQueue == Some([])
    requires !t2.finished && t2.finisherLive && t2.state == Running && t2.calls == [] && t2.pendingRuns == 1
    ensures var work := [WithResult(r), WithError(e)];
      var t4 := Step(Step(t2, work, WorkRunByExecutor), work, ErrorListenerAdded(MainThread, 2));
      t4.state == Error && t4.calls == [ResultCall(1, MainThread, Some(r)), ErrorCall(2, MainThread, Some(e))]
  {
    var work: seq<FinisherCall<R, E>> := [WithResult(r), WithError(e)];
    LateErrorWork(t2.(pendingRuns := 0), r, e);
    var t3 := Finish(t2.(pendingRuns := 0), work);
    assert Step(t2, work, WorkRunByExecutor) == t3;
  }

  /** The first two events: the result listener is queued and execute hands
      the work runnable to the background executor. */
  lemma LateErrorSetup<R, E>(r: R, e: E)
    ensures var work := [WithResult(r), WithError(e)];
      var t := Run(Initial<R, E>(Background(0)), work, [ResultListenerAdded(MainThread, 1), ExecuteCalled]);
      && t.resultQueue == Some([Entry(1, MainThread)]) && t.errorQueue == Some([])
      && !t.finished && t.finisherLive && t.state == Running && t.calls == [] && t.pendingRuns == 1
  {
    var t0 := Initial<R, E>(Background(0));
    var work: seq<FinisherCall<R, E>> := [WithResult(r), WithError(e)];
    var a1: Event<R, E> := ResultListenerAdded(MainThread, 1);
    var a2: Event<R, E> := ExecuteCalled;
    var t1 := AddOnResultListener(t0, MainThread, 1);
    assert [] + [Entry(1, MainThread)] == [Entry(1, MainThread)];
    assert t1.resultQueue == Some([Entry(1, MainThread)]);
    RunSnoc(t0, work, [], a1);
    assert [] + [a1] == [a1];
    RunSnoc(t0, work, [a1], a2);
    assert [a1] + [a2] == [a1, a2];
  }

  /** The work runs: withResult finishes the task and hands the result to the
      queued listener; the late withError still stores the error and raises
      the state to ERROR. */
  lemma LateErrorWork<R, E>(t: Task<R, E>, r: R, e: E)
    requires t.resultQueue == Some([Entry(1, MainThread)]) && t.errorQueue == Some([])
    requires !t.finished && t.state == Running && t.calls == []
    ensures var u := Finish(t, [WithResult(r), WithError(e)]);
      u.finished && u.state == Error && u.error == Some(e) && u.calls == [ResultCall(1, MainThread, Some(r))]
  {
    var ok: FinisherCall<R, E> := WithResult(r);
    var bad: FinisherCall<R, E> := WithError(e);
    var u1 := SetResult(t, r);
    assert u1.finished && u1.calls == [ResultCall(1, MainThread, Some(r))];
    FinishSnoc(t, [], ok);
    assert [] + [ok] == [ok];
    FinishSnoc(t, [ok], bad);
    assert [ok] + [bad] == [ok, bad];
  }

  /** setTimeout called twice: cancelling the first watcher task does not stop
      its sleep, so the first delay still times the task out, and it is the
      second callback that runs, on the second executor. */
  lemma StaleWatcherTimesOut<R, E>()
    ensures var evs := [TimeoutArmed(1000, MainThread, Some(1)), TimeoutArmed(5000, Background(0), Some(2)),
                        WatcherElapsed(0)];
      var t := Run(Initial<R, E>(CurrentThread), [], evs);
      t.state == Timeout && t.finished && t.calls == [TimeoutCall(Background(0), Some(2))]
  {
    var t0 := Initial<R, E>(CurrentThread);
    var a1: Event<R, E> := TimeoutArmed(1000, MainThread, Some(1));
    var a2: Event<R, E> := TimeoutArmed(5000, Background(0), Some(2));
    var w: Event<R, E> := WatcherElapsed(0);
    var t1 := SetTimeout(t0, 1000, MainThread, Some(1)).0;
    assert t1.liveWatcher == Some(0) && t1.watchers == 1 && t1.fired == {};
    var t2 := SetTimeout(t1, 5000, Background(0), Some(2)).0;
    assert t2.liveWatcher == Some(1) && t2.watchers == 2 && t2.fired == {} && !t2.finished;
    assert t2.timeoutExecutor == Some(Background(0)) && t2.timeoutCallback == Some(2);
    assert t2.state == Init && t2.calls == [];
    var raised := SetState(t2, Timeout);
    assert raised.state == Timeout;
    var t3 := TimeoutElapsed(t2, 0);
    assert t3.calls == [TimeoutCall(Background(0), Some(2))];
    RunSnoc(t0, [], [], a1);
    assert [] + [a1] == [a1];
    RunSnoc(t0, [], [a1], a2);
    assert [a1] + [a2] == [a1, a2];
    RunSnoc(t0, [], [a1, a2], w);
    assert [a1, a2] + [w] == [a1, a2, w];
  }

  lemma RunSnoc<R, E>(t: Task<R, E>, work: seq<FinisherCall<R, E>>, evs: seq<Event<R, E>>, ev: Event<R, E>)
    ensures Run(t, work, evs + [ev]) == Step(Run(t, work, evs), work, ev)
  {
    assert (evs + [ev])[..|evs|] == evs;
  }

  // ---------------------------------------------------------------------------
  // Corrected: a finished task ignores cancel, results and errors, and only
  // the watcher armed last can time it out.

  function CancelFixed<R, E>(t: Task<R, E>): (Task<R, E>, Outcome)
  {
    if t.finished then (t, Ok) else Cancel(t)
  }

  function FinisherStepFixed<R, E>(t: Task<R, E>, call: FinisherCall<R, E>): Task<R, E>
  {
    if t.finished then t else FinisherStep(t, call)
  }

  function FinishFixed<R, E>(t: Task<R, E>, calls: seq<FinisherCall<R, E>>): Task<R, E>
  {
    if calls == [] then t
    else FinisherStepFixed(FinishFixed(t, calls[..|calls| - 1]), calls[|calls| - 1])
  }

  function TimeoutElapsedFixed<R, E>(t: Task<R, E>, w: nat): Task<R, E>
    requires w < t.watchers && w !in t.fired
  {
    if t.liveWatcher == Some(w) then TimeoutElapsed(t, w) else t.(fired := t.fired + {w})
  }

  function RunWorkFixed<R, E>(t: Task<R, E>, work: seq<FinisherCall<R, E>>): Task<R, E>
  {
    if !t.finisherLive then t else FinishFixed(t, work)
  }

  function ExecuteFixed<R, E>(t: Task<R, E>, work: seq<FinisherCall<R, E>>): Task<R, E>
  {
    if t.finished then t
    else
      var running := SetState(t, Running);
      match running.workExecutor
      case None => running
      case Some(x) =>
        if x == CurrentThread then RunWorkFixed(running, work)
        else running.(pendingRuns := running.pendingRuns + 1)
  }

  function StepFixed<R, E>(t: Task<R, E>, work: seq<FinisherCall<R, E>>, ev: Event<R, E>): Task<R, E>
  {
    match ev
    case WatcherElapsed(w) => if w < t.watchers && w !in t.fired then TimeoutElapsedFixed(t, w) else t
    case CancelCalled => CancelFixed(t).0
    case ExecuteCalled => ExecuteFixed(t, work)
    case WorkRunByExecutor =>
      if t.pendingRuns > 0 then RunWorkFixed(t.(pendingRuns := t.pendingRuns - 1), work) else t
    case FinisherCalled(c) => FinisherStepFixed(t, c)
    case _ => Step(t, work, ev)
  }

  function RunFixed<R, E>(t: Task<R, E>, work: seq<FinisherCall<R, E>>, evs: seq<Event<R, E>>): Task<R, E>
  {
    if evs == [] then t
    else StepFixed(RunFixed(t, work, evs[..|evs| - 1]), work, evs[|evs| - 1])
  }

  /** Calls handed out so far agree with the state: nothing before finish,
      result listeners only in SUCCESS, error listeners only in ERROR. */
  ghost predicate Consistent<R, E>(t: Task<R, E>)
  {
    && Valid(t)
    && (!t.finished ==> t.calls == [])
    && forall i :: 0 <= i < |t.calls| ==>
         (t.calls[i].ResultCall? ==> t.state == Success) && (t.calls[i].ErrorCall? ==> t.state == Error)
  }

  /** Cancelling twice, or after the task has finished, has no further effect. */
  lemma CancelFixedIdempotent<R, E>(t: Task<R, E>)
    requires Valid(t)
    ensures t.finished ==> CancelFixed(t) == (t, Ok)
    ensures CancelFixed(CancelFixed(t).0) == (CancelFixed(t).0, Ok)
  {
  }

  /** A superseded watcher that elapses leaves state, flag and log alone. */
  lemma OnlyLiveWatcherTimesOut<R, E>(t: Task<R, E>, w: nat)
    requires Valid(t) && w < t.watchers && w !in t.fired && t.liveWatcher != Some(w)
    ensures var d := TimeoutElapsedFixed(t, w);
      d.state == t.state && d.finished == t.finished && d.calls == t.calls
  {
  }

  lemma DoOnFinishConsistent<R, E>(t: Task<R, E>)
    requires Valid(t) && !t.finished && t.calls == [] && Code(Timeout) <= Code(t.state)
    ensures Consistent(DoOnFinish(t))
  {
    DoOnFinishValid(t);
  }

  lemma FinisherStepFixedConsistent<R, E>(t: Task<R, E>, call: FinisherCall<R, E>)
    requires Consistent(t)
    ensures Consistent(FinisherStepFixed(t, call))
    ensures t.finished ==> FinisherStepFixed(t, call) == t
  {
    if !t.finished {
      match call
      case WithResult(r) =>
        DoOnFinishConsistent(SetState(t.(result := Some(r)), Success));
      case WithError(e) =>
        DoOnFinishConsistent(SetState(t.(error := Some(e)), Error));
    }
  }

  lemma {:induction false} FinishFixedConsistent<R, E>(t: Task<R, E>, calls: seq<FinisherCall<R, E>>)
    requires Consistent(t)
    ensures Consistent(FinishFixed(t, calls))
    ensures FinishFixed(t, calls).pendingRuns == t.pendingRuns
    ensures t.finished ==> FinishFixed(t, calls) == t
  {
    if calls != [] {
      FinishFixedConsistent(t, calls[..|calls| - 1]);
      FinisherStepFixedConsistent(FinishFixed(t, calls[..|calls| - 1]), calls[|calls| - 1]);
    }
  }

  /** Every corrected step keeps the log consistent with the state, and once
      the task is finished its state, result and error never change again. */
  lemma StepFixedConsistent<R, E>(t: Task<R, E>, work: seq<FinisherCall<R, E>>, ev: Event<R, E>)
    requires Consistent(t)
    ensures Consistent(StepFixed(t, work, ev))
    ensures t.finished ==>
      var s := StepFixed(t, work, ev);
      s.state == t.state && s.result == t.result && s.error == t.error
  {
    match ev
    case WatcherElapsed(w) =>
      if w < t.watchers && w !in t.fired && t.liveWatcher == Some(w) {
        TimeoutElapsedValid(t, w);
        if !t.finished {
          DoOnFinishConsistent(SetState(t, Timeout));
        }
      }
    case CancelCalled =>
      if !t.finished {
        var raised := SetState(t, Cancelled);
        DoOnFinishConsistent(raised.(resultQueue := Some([]), errorQueue := Some([])));
      }
    case ExecuteCalled =>
      if !t.finished {
        FinishFixedConsistent(SetState(t, Running), work);
      }
    case WorkRunByExecutor =>
      if t.pendingRuns > 0 {
        FinishFixedConsistent(t.(pendingRuns := t.pendingRuns - 1), work);
      }
    case FinisherCalled(c) => FinisherStepFixedConsistent(t, c);
    case ResultListenerAdded(x, l) => LateResultListener(t, x, l);
    case ErrorListenerAdded(x, l) => LateErrorListener(t, x, l);
    case TimeoutArmed(ms, x, cb) =>
  }

  lemma {:induction false} RunFixedConsistent<R, E>(t: Task<R, E>, work: seq<FinisherCall<R, E>>, evs: seq<Event<R, E>>)
    requires Consistent(t)
    ensures Consistent(RunFixed(t, work, evs))
  {
    if evs != [] {
      RunFixedConsistent(t, work, evs[..|evs| - 1]);
      StepFixedConsistent(RunFixed(t, work, evs[..|evs| - 1]), work, evs[|evs| - 1]);
    }
  }

  /** With the correction, no run from a new task ever hands out both a
      result-listener runnable and an error-listener runnable. */
  lemma ResultAndErrorExclusive<R, E>(x: Executor, work: seq<FinisherCall<R, E>>, evs: seq<Event<R, E>>, i: nat, j: nat)
    requires var t := RunFixed(Initial<R, E>(x), work, evs); i < |t.calls| && j < |t.calls|
    ensures var t := RunFixed(Initial<R, E>(x), work, evs); !(t.calls[i].ResultCall? && t.calls[j].ErrorCall?)
  {
    RunFixedConsistent(Initial<R, E>(x), work, evs);
  }
}
