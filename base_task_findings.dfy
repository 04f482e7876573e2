/** BaseTask with the two corrections its listeners need: the posted runnable
    carries the value it was posted with, and a failing task posts its error
    before it is marked CANCELLED. */
module BaseTaskFindings {
  import opened Common
  import opened BaseTaskModel

  /** onFinish, posting a runnable that captures the current result or error. */
  function OnFinishFixed<R, E>(b: Base<R, E>, withError: bool): Base<R, E>
  {
    if IsComplete(b) then b
    else Conclude(b, if withError then DrainErrorsWith(b.error) else DrainResultsWith(b.result))
  }

  function FinishWithResultFixed<R, E>(b: Base<R, E>, r: R): Base<R, E>
  {
    OnFinishFixed(b.(result := Some(r)), false)
  }

  /** finishTaskWithError: store the error, run onFinish(true), then cancel. */
  function FinishWithErrorFixed<R, E>(b: Base<R, E>, e: E): Base<R, E>
  {
    var c := b.(error := Some(e));
    if IsComplete(c) then c else Cancel(OnFinishFixed(c, true))
  }

  /** Every result listener queued by the time the runnable runs receives the
      result the task finished with, and a later finishTaskWithResult does not
      change it. */
  lemma ResultListenersGetResult<R, E>(b: Base<R, E>, r: R, r2: R)
    requires Valid(b) && !IsComplete(b)
    ensures var f := FinishWithResultFixed(b, r);
      && Valid(f) && f.state == Finished && f.posted == [DrainResultsWith(Some(r))]
      && RunPosted(f) ==
           (f.(posted := [], resultQueue := None, errorQueue := None,
               delivered := b.delivered + ResultDeliveries(b.resultQueue.value, Some(r))), Ok)
      && RunPosted(FinishWithResultFixed(f, r2)).0.delivered == RunPosted(f).0.delivered
  {
    var f := FinishWithResultFixed(b, r);
    assert f.posted[1..] == [];
  }

  /** A failing task ends CANCELLED, shuts down the executor it owns, and
      every queued error listener receives the error. */
  lemma ErrorListenersGetError<R, E>(b: Base<R, E>, e: E)
    requires Valid(b) && !IsComplete(b)
    ensures var f := FinishWithErrorFixed(b, e);
      && Valid(f) && f.state == Cancelled && f.posted == [DrainErrorsWith(Some(e))]
      && f.shutdowns == b.shutdowns + (if b.ownsService then 1 else 0) && !f.ownsService
      && RunPosted(f) ==
           (f.(posted := [], resultQueue := None, errorQueue := None,
               delivered := b.delivered + ErrorDeliveries(b.errorQueue.value, Some(e))), Ok)
  {
    var f := FinishWithErrorFixed(b, e);
    assert f.posted[1..] == [];
  }

  /** Once complete, further results and errors change nothing but the field. */
  lemma FixedIgnoresLateCalls<R, E>(b: Base<R, E>, r: R, e: E)
    requires IsComplete(b)
    ensures FinishWithResultFixed(b, r) == b.(result := Some(r))
    ensures FinishWithErrorFixed(b, e) == b.(error := Some(e))
  {
  }
}
