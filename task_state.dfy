/** The numeric state of an ExecutableTask and the monotonic `setState` that
    updates it (ExecutableTask.java, the constants INIT..CANCELLED and setState). */
module TaskState {

  datatype State = Init | Running | Timeout | Success | Error | Cancelled

  /** The int constant the source gives each state. */
  function Code(s: State): nat
  {
    match s
    case Init => 0
    case Running => 1
    case Timeout => 2
    case Success => 3
    case Error => 4
    case Cancelled => 5
  }

  /** `setState(requested)` when the state is `current`: the state only moves
      to a higher-numbered one, so the outcome is the higher of the two. */
  function Raise(current: State, requested: State): (r: State)
    ensures r == current || r == requested
    ensures Code(current) <= Code(r) && Code(requested) <= Code(r)
  {
    if Code(current) < Code(requested) then requested else current
  }

  /** The state after `setState` is called with each of `requests` in turn. */
  function RaiseAll(s: State, requests: seq<State>): State
  {
    if requests == [] then s
    else Raise(RaiseAll(s, requests[..|requests| - 1]), requests[|requests| - 1])
  }

  /** `r` is the highest-numbered of `s` and `requests`. */
  ghost predicate IsHighest(r: State, s: State, requests: seq<State>)
  {
    && (r == s || r in requests)
    && Code(s) <= Code(r)
    && forall i :: 0 <= i < |requests| ==> Code(requests[i]) <= Code(r)
  }

  /** Whatever the calls, the final state is the highest one requested (or the
      starting state, if it is higher): the state never goes down. */
  lemma {:induction false} RaiseAllIsHighest(s: State, requests: seq<State>)
    ensures IsHighest(RaiseAll(s, requests), s, requests)
  {
    if requests != [] {
      var front := requests[..|requests| - 1];
      RaiseAllIsHighest(s, front);
      var last := requests[|requests| - 1];
      var r := RaiseAll(s, requests);
      assert r == Raise(RaiseAll(s, front), last);
      forall i | 0 <= i < |requests|
        ensures Code(requests[i]) <= Code(r)
      {
        if i < |requests| - 1 {
          assert requests[i] == front[i];
        }
      }
      if r != s && r != last {
        assert RaiseAll(s, front) in front;
      }
    }
  }

  lemma CodeInjective(a: State, b: State)
    ensures Code(a) == Code(b) ==> a == b
  {
  }

  /** Two racing sequences of `setState` calls that contain the same requests
      end in the same state, whatever order the calls are made in. */
  lemma {:induction false} RaiseAllOrderIndependent(s: State, a: seq<State>, b: seq<State>)
    requires multiset(a) == multiset(b)
    ensures RaiseAll(s, a) == RaiseAll(s, b)
  {
    var ra, rb := RaiseAll(s, a), RaiseAll(s, b);
    RaiseAllIsHighest(s, a);
    RaiseAllIsHighest(s, b);
    assert forall x :: x in a <==> x in b by {
      forall x ensures x in a <==> x in b {
        assert x in a <==> x in multiset(a);
        assert x in b <==> x in multiset(b);
      }
    }
    assert Code(ra) <= Code(rb) by {
      if ra != s {
        var i :| 0 <= i < |b| && b[i] == ra;
      }
    }
    assert Code(rb) <= Code(ra) by {
      if rb != s {
        var i :| 0 <= i < |a| && a[i] == rb;
      }
    }
    CodeInjective(ra, rb);
  }
}
