/** The static factories of Tasks.java over the ExecutableTask class, and the
    mutable state the whenAll / whenAllSuccess listeners share. */
module Tasks {
  import opened Common
  import opened TaskState
  import opened TaskIds
  import opened Joins
  import TM = TaskModel
  import opened ExecutableTasks

  /** forResult: a current-thread task whose work does nothing, finished with
      the given result on creation. */
  method ForResult<R, E>(result: R, counter: IdCounter) returns (task: ExecutableTask<R, E>)
    requires counter.Valid()
    modifies counter
    ensures fresh(task) && task.Valid() && task.work == []
    ensures task.Model() == TM.SetResult(TM.Initial(CurrentThread), result)
    ensures counter.Valid() && (task.id, counter.last) == AssignId(old(counter.last))
  {
    task := new ExecutableTask(CurrentThread, [], counter);
    task.SetResult(result);
  }

  /** forError: the same, finished with the given error. */
  method ForError<R, E>(error: E, counter: IdCounter) returns (task: ExecutableTask<R, E>)
    requires counter.Valid()
    modifies counter
    ensures fresh(task) && task.Valid() && task.work == []
    ensures task.Model() == TM.SetError(TM.Initial(CurrentThread), error)
    ensures counter.Valid() && (task.id, counter.last) == AssignId(old(counter.last))
  {
    task := new ExecutableTask(CurrentThread, [], counter);
    task.SetError(error);
  }

  /** A task made by forResult / forError is already finished with that value,
      has handed out nothing, refuses execute(), and hands its value to every
      matching listener added later. */
  lemma ForValueFinished<R, E>(r: R, e: E, work: seq<FinisherCall<R, E>>, x: Executor, l: ListenerId)
    ensures var t := TM.SetResult(TM.Initial<R, E>(CurrentThread), r);
      && t.finished && t.state == Success && t.result == Some(r) && t.calls == []
      && TM.Execute(t, work) == (t, IllegalState)
      && TM.AddOnResultListener(t, x, l).calls == [TM.ResultCall(l, x, Some(r))]
    ensures var t := TM.SetError(TM.Initial<R, E>(CurrentThread), e);
      && t.finished && t.state == Error && t.error == Some(e) && t.calls == []
      && TM.Execute(t, work) == (t, IllegalState)
      && TM.AddOnErrorListener(t, x, l).calls == [TM.ErrorCall(l, x, Some(e))]
  {
    TM.SetResultValid(TM.Initial<R, E>(CurrentThread), r);
    TM.SetErrorValid(TM.Initial<R, E>(CurrentThread), e);
    TM.LateResultListener(TM.SetResult(TM.Initial<R, E>(CurrentThread), r), x, l);
    TM.LateErrorListener(TM.SetError(TM.Initial<R, E>(CurrentThread), e), x, l);
  }

  /** runOnExecutor: a new task running `work` on `executor`, executed at once. */
  method RunOnExecutor<R, E>(executor: Executor, work: seq<FinisherCall<R, E>>, counter: IdCounter)
    returns (task: ExecutableTask<R, E>, outcome: Outcome)
    requires counter.Valid()
    modifies counter
    ensures fresh(task) && task.Valid() && task.work == work
    ensures (task.Model(), outcome) == TM.Execute(TM.Initial(executor), work)
    ensures counter.Valid() && (task.id, counter.last) == AssignId(old(counter.last))
  {
    task := new ExecutableTask(executor, work, counter);
    outcome := task.Execute();
  }

  /** run: runOnExecutor with the current-thread executor. */
  method Run<R, E>(work: seq<FinisherCall<R, E>>, counter: IdCounter) returns (task: ExecutableTask<R, E>, outcome: Outcome)
    requires counter.Valid()
    modifies counter
    ensures fresh(task) && task.Valid() && task.work == work
    ensures (task.Model(), outcome) == TM.Execute(TM.Initial(CurrentThread), work)
    ensures counter.Valid() && (task.id, counter.last) == AssignId(old(counter.last))
  {
    task, outcome := RunOnExecutor(CurrentThread, work, counter);
  }

  /** runAsync: runOnExecutor with the default background executor, here the
      pool `worker`. */
  method RunAsync<R, E>(worker: nat, work: seq<FinisherCall<R, E>>, counter: IdCounter) returns (task: ExecutableTask<R, E>, outcome: Outcome)
    requires counter.Valid()
    modifies counter
    ensures fresh(task) && task.Valid() && task.work == work
    ensures (task.Model(), outcome) == TM.Execute(TM.Initial(Background(worker)), work)
    ensures counter.Valid() && (task.id, counter.last) == AssignId(old(counter.last))
  {
    task, outcome := RunOnExecutor(Background(worker), work, counter);
  }

  /** runOnMainThread: runOnExecutor with the main-thread executor. */
  method RunOnMainThread<R, E>(work: seq<FinisherCall<R, E>>, counter: IdCounter) returns (task: ExecutableTask<R, E>, outcome: Outcome)
    requires counter.Valid()
    modifies counter
    ensures fresh(task) && task.Valid() && task.work == work
    ensures (task.Model(), outcome) == TM.Execute(TM.Initial(MainThread), work)
    ensures counter.Valid() && (task.id, counter.last) == AssignId(old(counter.last))
  {
    task, outcome := RunOnExecutor(MainThread, work, counter);
  }

  /** A freshly made task always accepts execute(). On the current thread the
      work has run by the time the task is returned, ending in the highest
      state it asked for; elsewhere the task is RUNNING with one work runnable
      waiting, and running it later ends exactly where running it at once does. */
  lemma RunOnExecutorOutcome<R, E>(x: Executor, work: seq<FinisherCall<R, E>>)
    ensures TM.Execute(TM.Initial<R, E>(x), work).1 == Ok
    ensures x == CurrentThread ==>
      var t := TM.Execute(TM.Initial<R, E>(x), work).0;
      t.state == RaiseAll(Running, TM.Requested(work)) && (t.finished <==> work != [])
    ensures x != CurrentThread ==>
      var t := TM.Execute(TM.Initial<R, E>(x), work).0;
      && t.state == Running && !t.finished && t.pendingRuns == 1 && t.calls == []
      && var later := TM.RunPendingWork(t, work).0;
         var now := TM.Execute(TM.Initial<R, E>(CurrentThread), work).0;
         && later.state == now.state && later.finished == now.finished && later.calls == now.calls
         && later.result == now.result && later.error == now.error
         && (work != [] ==> later == now)
  {
    var i := TM.Initial<R, E>(x);
    TM.ExecuteRule(i, work);
    TM.FinishRaisesToHighest(TM.SetState(i, Running), work);
    if x != CurrentThread {
      var t := TM.Execute(i, work).0;
      var now := TM.Execute(TM.Initial<R, E>(CurrentThread), work).0;
      TM.ExecuteRule(TM.Initial<R, E>(CurrentThread), work);
      SameFinish(t.(pendingRuns := 0), TM.SetState(TM.Initial<R, E>(CurrentThread), Running), work);
    }
  }

  /** Two tasks that differ only in their work executor end the same finisher
      calls alike in everything but that executor, which both drop if any call
      is made. */
  lemma {:induction false} SameFinish<R, E>(a: TM.Task<R, E>, b: TM.Task<R, E>, work: seq<FinisherCall<R, E>>)
    requires a.workExecutor.Some? && b.workExecutor.Some? && a == b.(workExecutor := a.workExecutor)
    requires !a.finished && TM.Valid(b)
    ensures var fa, fb := TM.Finish(a, work), TM.Finish(b, work);
      fa == fb.(workExecutor := fa.workExecutor) && (work != [] ==> fa == fb)
  {
    if work != [] {
      var front := work[..|work| - 1];
      SameFinish(a, b, front);
      TM.FinishRaisesToHighest(b, front);
      TM.FinishValid(b, front);
    }
  }

  // ---------------------------------------------------------------------------
  // The state the whenAll listeners share: an AtomicInteger and the returned
  // task's work finisher.

  class WhenAllJoin {
    /** The task whenAll returns. */
    const parent: ExecutableTask<(), ()>
    var count: int

    constructor (parent: ExecutableTask<(), ()>, size: nat)
      ensures this.parent == parent && count == size
    {
      this.parent := parent;
      count := size;
    }

    /** One supplied task's result or error listener runs. */
    method Deliver<R>(sig: Signal<R>)
      requires parent.Valid()
      modifies this, parent
      ensures parent.Valid()
      ensures var c := WhenAllStep(Counter(old(count), []), sig);
        count == c.count && parent.Model() == TM.Finish(old(parent.Model()), c.calls)
    {
      ghost var start := parent.Model();
      match sig {
        case ChildResult(_, _) =>
          count := count - 1;
          if count == 0 {
            var call: FinisherCall<(), ()> := WithResult(());
            parent.Finisher(call);
            TM.FinishSnoc(start, [], call);
            assert [] + [call] == [call];
          }
        case ChildError(_) =>
          var call: FinisherCall<(), ()> := WithError(());
          parent.Finisher(call);
          TM.FinishSnoc(start, [], call);
          assert [] + [call] == [call];
      }
    }
  }

  // ---------------------------------------------------------------------------
  // The state the whenAllSuccess listeners share: the results array, the
  // one-element count array and the returned task's work finisher.

  class WhenAllSuccessJoin<R> {
    const parent: ExecutableTask<seq<Option<R>>, ()>
    /** The results array; an empty slot is a result not yet reported. */
    const resultsArray: array<Option<R>>
    var count: int

    constructor (parent: ExecutableTask<seq<Option<R>>, ()>, size: nat)
      ensures this.parent == parent && count == size && fresh(resultsArray)
      ensures resultsArray[..] == EmptySlots(size)
    {
      this.parent := parent;
      resultsArray := new Option<R>[size](_ => None);
      count := size;
    }

    /** One supplied task's result or error listener runs. */
    method Deliver(sig: Signal<R>)
      requires parent.Valid() && sig.pos < resultsArray.Length
      modifies this, resultsArray, parent
      ensures parent.Valid()
      ensures var c := CollectStep(Collector(old(resultsArray[..]), old(count), []), sig);
        && resultsArray[..] == c.slots && count == c.count
        && parent.Model() == TM.Finish(old(parent.Model()), c.calls)
    {
      ghost var start := parent.Model();
      match sig {
        case ChildResult(pos, v) =>
          resultsArray[pos] := Some(v);
          count := count - 1;
          if count == 0 {
            var call: FinisherCall<seq<Option<R>>, ()> := WithResult(resultsArray[..]);
            parent.Finisher(call);
            TM.FinishSnoc(start, [], call);
            assert [] + [call] == [call];
          }
        case ChildError(_) =>
          var call: FinisherCall<seq<Option<R>>, ()> := WithError(());
          parent.Finisher(call);
          TM.FinishSnoc(start, [], call);
          assert [] + [call] == [call];
      }
    }
  }
}
