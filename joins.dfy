/** The joins behind `Tasks.whenAll` and `Tasks.whenAllSuccess`: what the
    listeners attached to the supplied tasks do with a shared counter (and, for
    whenAllSuccess, a results array) as the supplied tasks report, and which
    calls they make on the returned task's work finisher. */
module Joins {
  import opened Common
  import opened TaskState
  import TM = TaskModel

  /** One listener invocation on a supplied task: its result listener with a
      value, or its error listener. `pos` is the task's place in the
      collection (its iteration index). */
  datatype Signal<R> = ChildResult(pos: nat, value: R) | ChildError(pos: nat)

  function Results<R>(s: seq<Signal<R>>): nat
  {
    if s == [] then 0
    else Results(s[..|s| - 1]) + (if s[|s| - 1].ChildResult? then 1 else 0)
  }

  function Errors<R>(s: seq<Signal<R>>): nat
  {
    if s == [] then 0
    else Errors(s[..|s| - 1]) + (if s[|s| - 1].ChildError? then 1 else 0)
  }

  /** How many `withResult` calls a finisher log holds. */
  function Successes<V, W>(calls: seq<FinisherCall<V, W>>): nat
  {
    if calls == [] then 0
    else Successes(calls[..|calls| - 1]) + (if calls[|calls| - 1].WithResult? then 1 else 0)
  }

  /** How many `withError` calls a finisher log holds. */
  function Failures<V, W>(calls: seq<FinisherCall<V, W>>): nat
  {
    if calls == [] then 0
    else Failures(calls[..|calls| - 1]) + (if calls[|calls| - 1].WithError? then 1 else 0)
  }

  lemma {:induction false} CountWitnesses<V, W>(calls: seq<FinisherCall<V, W>>)
    ensures Successes(calls) + Failures(calls) == |calls|
    ensures Successes(calls) > 0 <==> exists i :: 0 <= i < |calls| && calls[i].WithResult?
    ensures Failures(calls) > 0 <==> exists i :: 0 <= i < |calls| && calls[i].WithError?
  {
    if calls != [] {
      var front := calls[..|calls| - 1];
      CountWitnesses(front);
      if exists i :: 0 <= i < |front| && front[i].WithResult? {
        var i :| 0 <= i < |front| && front[i].WithResult?;
        assert calls[i] == front[i];
      }
      if exists i :: 0 <= i < |front| && front[i].WithError? {
        var i :| 0 <= i < |front| && front[i].WithError?;
        assert calls[i] == front[i];
      }
      if exists i :: 0 <= i < |calls| && calls[i].WithResult? {
        var i :| 0 <= i < |calls| && calls[i].WithResult?;
        if i < |front| {
          assert front[i] == calls[i];
        }
      }
      if exists i :: 0 <= i < |calls| && calls[i].WithError? {
        var i :| 0 <= i < |calls| && calls[i].WithError?;
        if i < |front| {
          assert front[i] == calls[i];
        }
      }
    }
  }

  /** Raising RUNNING by SUCCESS and ERROR requests ends in ERROR if one was
      requested, else in SUCCESS if one was, else in RUNNING. */
  lemma RaiseFromRunning(rs: seq<State>)
    requires forall i :: 0 <= i < |rs| ==> rs[i] == Success || rs[i] == Error
    ensures RaiseAll(Running, rs) == (if Error in rs then Error else if Success in rs then Success else Running)
  {
    var r := RaiseAll(Running, rs);
    RaiseAllIsHighest(Running, rs);
    if Error in rs {
      var i :| 0 <= i < |rs| && rs[i] == Error;
      assert Code(rs[i]) <= Code(r);
      CodeInjective(r, Error);
    } else if Success in rs {
      var i :| 0 <= i < |rs| && rs[i] == Success;
      assert Code(rs[i]) <= Code(r);
    }
  }

  /** The returned task is RUNNING when the joins call its finisher; whatever
      the order of the calls, it ends in ERROR if any of them is `withError`,
      else in SUCCESS if one is `withResult`, and otherwise stays RUNNING. */
  lemma JoinedState<V, W>(p: TM.Task<V, W>, calls: seq<FinisherCall<V, W>>)
    requires p.state == Running
    ensures var f := TM.Finish(p, calls);
      && f.state == (if Failures(calls) > 0 then Error else if Successes(calls) > 0 then Success else Running)
      && (f.finished <==> p.finished || Successes(calls) + Failures(calls) > 0)
  {
    TM.FinishRaisesToHighest(p, calls);
    CountWitnesses(calls);
    RequestedCounts(calls);
    RaiseFromRunning(TM.Requested(calls));
  }

  /** ERROR is requested exactly when some call is `withError`, SUCCESS exactly
      when some call is `withResult`. */
  lemma RequestedCounts<V, W>(calls: seq<FinisherCall<V, W>>)
    ensures forall i :: 0 <= i < |TM.Requested(calls)| ==>
      TM.Requested(calls)[i] == Success || TM.Requested(calls)[i] == Error
    ensures Error in TM.Requested(calls) <==> Failures(calls) > 0
    ensures Success in TM.Requested(calls) <==> Successes(calls) > 0
  {
    var rs := TM.Requested(calls);
    CountWitnesses(calls);
    if Error in rs {
      var i :| 0 <= i < |rs| && rs[i] == Error;
      assert calls[i].WithError?;
    }
    if Failures(calls) > 0 {
      var i :| 0 <= i < |calls| && calls[i].WithError?;
      assert rs[i] == Error;
    }
    if Success in rs {
      var i :| 0 <= i < |rs| && rs[i] == Success;
      assert calls[i].WithResult?;
    }
    if Successes(calls) > 0 {
      var i :| 0 <= i < |calls| && calls[i].WithResult?;
      assert rs[i] == Success;
    }
  }

  // ---------------------------------------------------------------------------
  // whenAll: an AtomicInteger set to the collection's size; every result
  // decrements it and the one that reaches zero calls withResult(null); every
  // error calls withError(null).

  datatype Counter = Counter(count: int, calls: seq<FinisherCall<(), ()>>)

  function WhenAllStep<R>(c: Counter, sig: Signal<R>): Counter
  {
    match sig
    case ChildResult(_, _) =>
      var left := c.count - 1;
      Counter(left, c.calls + (if left == 0 then [WithResult(())] else []))
    case ChildError(_) => c.(calls := c.calls + [WithError(())])
  }

  function WhenAllFrom<R>(c: Counter, s: seq<Signal<R>>): Counter
  {
    if s == [] then c else WhenAllStep(WhenAllFrom(c, s[..|s| - 1]), s[|s| - 1])
  }

  /** The join as written: `n` is the size of the collection. */
  function WhenAll<R>(n: nat, s: seq<Signal<R>>): Counter
  {
    WhenAllFrom(Counter(n, []), s)
  }

  /** The join with an empty collection completing at once. */
  function WhenAllFixed<R>(n: nat, s: seq<Signal<R>>): Counter
  {
    WhenAllFrom(Counter(n, if n == 0 then [WithResult(())] else []), s)
  }

  lemma {:induction false} WhenAllFromCounts<R>(c: Counter, s: seq<Signal<R>>)
    ensures var d := WhenAllFrom(c, s);
      && d.count == c.count - Results(s)
      && Failures(d.calls) == Failures(c.calls) + Errors(s)
      && Successes(d.calls) == Successes(c.calls) + (if 0 < c.count <= Results(s) then 1 else 0)
  {
    if s != [] {
      var front := s[..|s| - 1];
      WhenAllFromCounts(c, front);
      var d := WhenAllFrom(c, front);
      var e := WhenAllStep(d, s[|s| - 1]);
      if s[|s| - 1].ChildResult? {
        if e.count == 0 {
          assert e.calls[..|e.calls| - 1] == d.calls;
        } else {
          assert e.calls == d.calls;
        }
      } else {
        assert e.calls[..|e.calls| - 1] == d.calls;
      }
    }
  }

  /** whenAll forwards one withError per failed task, and calls withResult
      exactly once, when the number of results reaches the collection's size,
      and never for an empty collection. */
  lemma WhenAllCounts<R>(n: nat, s: seq<Signal<R>>)
    ensures WhenAll(n, s).count == n - Results(s)
    ensures Failures(WhenAll(n, s).calls) == Errors(s)
    ensures Successes(WhenAll(n, s).calls) == (if 0 < n <= Results(s) then 1 else 0)
  {
    WhenAllFromCounts(Counter(n, []), s);
  }

  /** The task whenAll returns: it succeeds exactly when every one of the `n`
      supplied tasks has reported a result and none has failed, and fails as
      soon as one has failed. */
  lemma WhenAllOutcome<R>(p: TM.Task<(), ()>, n: nat, s: seq<Signal<R>>)
    requires p.state == Running && !p.finished
    ensures var f := TM.Finish(p, WhenAll(n, s).calls);
      && (f.state == Error <==> Errors(s) > 0)
      && (f.state == Success <==> Errors(s) == 0 && 0 < n <= Results(s))
      && (f.finished <==> Errors(s) > 0 || 0 < n <= Results(s))
  {
    WhenAllCounts(n, s);
    JoinedState(p, WhenAll(n, s).calls);
  }

  /** As written, whenAll of an empty collection never completes: there is no
      task to report, so its returned task stays RUNNING. */
  lemma WhenAllEmptyHangs(p: TM.Task<(), ()>)
    requires p.state == Running && !p.finished
    ensures var f := TM.Finish(p, WhenAll<()>(0, []).calls);
      f.state == Running && !f.finished
  {
  }

  /** Corrected: an empty collection succeeds at once, and in general the
      returned task succeeds exactly when at least `n` results and no error
      have been reported. */
  lemma WhenAllFixedOutcome<R>(p: TM.Task<(), ()>, n: nat, s: seq<Signal<R>>)
    requires p.state == Running && !p.finished
    ensures var f := TM.Finish(p, WhenAllFixed(n, s).calls);
      && (f.state == Error <==> Errors(s) > 0)
      && (f.state == Success <==> Errors(s) == 0 && n <= Results(s))
      && (f.finished <==> Errors(s) > 0 || n <= Results(s))
  {
    var c := Counter(n, if n == 0 then [WithResult(())] else []);
    WhenAllFromCounts(c, s);
    if n == 0 {
      assert c.calls[..0] == [];
    }
    JoinedState(p, WhenAllFixed(n, s).calls);
  }

  // ---------------------------------------------------------------------------
  // whenAllSuccess: an array with a slot per supplied task and a counter; each
  // result is stored at its task's position, and the one that brings the
  // counter to zero calls withResult with the list over the array.

  datatype Collector<R> = Collector(slots: seq<Option<R>>, count: int, calls: seq<FinisherCall<seq<Option<R>>, ()>>)

  /** Every signal names a position inside the results array. */
  ghost predicate InRange<R>(s: seq<Signal<R>>, n: nat)
  {
    forall k :: 0 <= k < |s| ==> s[k].pos < n
  }

  function CollectStep<R>(c: Collector<R>, sig: Signal<R>): Collector<R>
    requires sig.pos < |c.slots|
  {
    match sig
    case ChildResult(pos, v) =>
      var slots := c.slots[pos := Some(v)];
      var left := c.count - 1;
      Collector(slots, left, c.calls + (if left == 0 then [WithResult(slots)] else []))
    case ChildError(_) => c.(calls := c.calls + [WithError(())])
  }

  function CollectFrom<R>(c: Collector<R>, s: seq<Signal<R>>): (d: Collector<R>)
    requires InRange(s, |c.slots|)
    ensures |d.slots| == |c.slots|
  {
    if s == [] then c else CollectStep(CollectFrom(c, s[..|s| - 1]), s[|s| - 1])
  }

  function EmptySlots<R>(n: nat): (slots: seq<Option<R>>)
    ensures |slots| == n && forall i :: 0 <= i < n ==> slots[i].None?
  {
    seq(n, _ => None)
  }

  /** The join as written: `n` is the size of the collection. */
  function Collect<R>(n: nat, s: seq<Signal<R>>): Collector<R>
    requires InRange(s, n)
  {
    CollectFrom(Collector(EmptySlots(n), n, []), s)
  }

  /** The join with an empty collection completing at once with an empty list. */
  function CollectFixed<R>(n: nat, s: seq<Signal<R>>): Collector<R>
    requires InRange(s, n)
  {
    CollectFrom(Collector(EmptySlots(n), n, if n == 0 then [WithResult([])] else []), s)
  }

  lemma {:induction false} CollectFromCounts<R>(c: Collector<R>, s: seq<Signal<R>>)
    requires InRange(s, |c.slots|)
    ensures var d := CollectFrom(c, s);
      && d.count == c.count - Results(s)
      && Failures(d.calls) == Failures(c.calls) + Errors(s)
      && Successes(d.calls) == Successes(c.calls) + (if 0 < c.count <= Results(s) then 1 else 0)
  {
    if s != [] {
      var front := s[..|s| - 1];
      CollectFromCounts(c, front);
      var d := CollectFrom(c, front);
      var e := CollectStep(d, s[|s| - 1]);
      if s[|s| - 1].ChildResult? {
        if e.count == 0 {
          assert e.calls[..|e.calls| - 1] == d.calls;
        } else {
          assert e.calls == d.calls;
        }
      } else {
        assert e.calls[..|e.calls| - 1] == d.calls;
      }
    }
  }

  /** whenAllSuccess forwards one withError per failed task and calls
      withResult once, when the results reach the collection's size. */
  lemma CollectOutcome<R>(p: TM.Task<seq<Option<R>>, ()>, n: nat, s: seq<Signal<R>>)
    requires InRange(s, n) && p.state == Running && !p.finished
    ensures Failures(Collect(n, s).calls) == Errors(s)
    ensures Successes(Collect(n, s).calls) == (if 0 < n <= Results(s) then 1 else 0)
    ensures var f := TM.Finish(p, Collect(n, s).calls);
      && (f.state == Error <==> Errors(s) > 0)
      && (f.state == Success <==> Errors(s) == 0 && 0 < n <= Results(s))
  {
    CollectFromCounts(Collector(EmptySlots(n), n, []), s);
    JoinedState(p, Collect(n, s).calls);
  }

  /** As written, whenAllSuccess of an empty collection never calls its finisher. */
  lemma CollectEmptyHangs<R>()
    ensures Collect<R>(0, []).calls == []
  {
  }

  /** Corrected: the empty collection yields the empty list, and otherwise the
      returned task succeeds exactly when at least `n` results and no error
      have been reported. */
  lemma CollectFixedOutcome<R>(p: TM.Task<seq<Option<R>>, ()>, n: nat, s: seq<Signal<R>>)
    requires InRange(s, n) && p.state == Running && !p.finished
    ensures n == 0 && s == [] ==> CollectFixed(n, s).calls == [WithResult([])]
    ensures var f := TM.Finish(p, CollectFixed(n, s).calls);
      && (f.state == Error <==> Errors(s) > 0)
      && (f.state == Success <==> Errors(s) == 0 && n <= Results(s))
  {
    var c := Collector(EmptySlots<R>(n), n, if n == 0 then [WithResult([])] else []);
    CollectFromCounts(c, s);
    if n == 0 {
      assert c.calls[..0] == [];
    }
    JoinedState(p, CollectFixed(n, s).calls);
  }

  /** The slots after the first `k` arrivals, when the task at `order[j]`
      reports `vals[order[j]]`. */
  function Filled<R>(n: nat, order: seq<nat>, vals: seq<R>, k: nat): seq<Option<R>>
    requires k <= |order| && |vals| == n
  {
    seq(n, i requires 0 <= i < n => if i in order[..k] then Some(vals[i]) else None)
  }

  lemma {:induction false} CollectPrefix<R>(n: nat, order: seq<nat>, vals: seq<R>, s: seq<Signal<R>>, k: nat)
    requires |order| == n && |vals| == n && |s| == n && k <= n
    requires forall j :: 0 <= j < n ==> order[j] < n && s[j] == ChildResult(order[j], vals[order[j]])
    ensures InRange(s[..k], n)
    ensures Collect(n, s[..k]) ==
      Collector(Filled(n, order, vals, k), n - k, if k == n && n > 0 then [WithResult(Filled(n, order, vals, k))] else [])
  {
    if k > 0 {
      CollectPrefix(n, order, vals, s, k - 1);
      assert s[..k][..k - 1] == s[..k - 1];
      assert order[..k] == order[..k - 1] + [order[k - 1]];
      var before := Collect(n, s[..k - 1]);
      var slots := before.slots[order[k - 1] := Some(vals[order[k - 1]])];
      assert slots == Filled(n, order, vals, k);
    }
  }

  /** Whatever order the supplied tasks report in, the list handed to
      withResult has each task's result at that task's own position in the
      collection, and it is handed over exactly once, after the last report. */
  lemma ResultsInSubmissionOrder<R>(n: nat, order: seq<nat>, vals: seq<R>, s: seq<Signal<R>>)
    requires |order| == n && |vals| == n && |s| == n
    requires forall i :: 0 <= i < n ==> i in order
    requires forall j :: 0 <= j < n ==> order[j] < n && s[j] == ChildResult(order[j], vals[order[j]])
    ensures InRange(s, n)
    ensures Collect(n, s).calls == if n == 0 then [] else [WithResult(seq(n, i requires 0 <= i < n => Some(vals[i])))]
  {
    CollectPrefix(n, order, vals, s, n);
    assert s[..n] == s && order[..n] == order;
    assert Filled(n, order, vals, n) == seq(n, i requires 0 <= i < n => Some(vals[i]));
  }
}
