/** Task identifiers: the shared counter LAST_ID and `assignId`
    (ExecutableTask.java), with the counter passed in as state. */
module TaskIds {

  /** Integer.MAX_VALUE */
  const MaxInt: int := 0x7fff_ffff

  /** `assignId` with the counter at `last`: reset the counter to 0 when it
      holds MAX_VALUE, then take its value as the id and increment it.
      Returns the id and the new counter value. */
  function AssignId(last: int): (r: (int, int))
    requires 0 <= last <= MaxInt
    ensures 0 <= r.0 < MaxInt
    ensures 0 < r.1 <= MaxInt
    ensures last < MaxInt ==> r.0 == last
    ensures last == MaxInt ==> r.0 == 0
    ensures r.1 == r.0 + 1
  {
    var current := if last == MaxInt then 0 else last;
    (current, current + 1)
  }

  /** The counter after `k` tasks have been created from a fresh counter. */
  function CounterAfter(k: nat): (c: int)
    ensures 0 <= c <= MaxInt
  {
    if k == 0 then 0 else AssignId(CounterAfter(k - 1)).1
  }

  /** The `k`-th task created (counting from 0) gets id `k % MAX_VALUE`: ids
      run from 0 to MAX_VALUE - 1 and then start again from 0. */
  lemma {:induction false} IdsWrap(k: nat)
    ensures AssignId(CounterAfter(k)).0 == k % MaxInt
    ensures k > 0 ==> CounterAfter(k) == (k - 1) % MaxInt + 1
  {
    if k > 0 {
      IdsWrap(k - 1);
      if k - 1 > 0 {
        assert CounterAfter(k - 1) == (k - 2) % MaxInt + 1;
      }
      assert CounterAfter(k) == (k - 1) % MaxInt + 1;
      if (k - 1) % MaxInt == MaxInt - 1 {
        assert k % MaxInt == 0;
      } else {
        assert k % MaxInt == (k - 1) % MaxInt + 1;
      }
    }
  }

  /** Two tasks created `MaxInt` creations apart share an id. */
  lemma IdsRepeatAfterWrap(k: nat)
    ensures AssignId(CounterAfter(k)).0 == AssignId(CounterAfter(k + MaxInt)).0
  {
    IdsWrap(k);
    IdsWrap(k + MaxInt);
    ModShift(k);
  }

  lemma ModShift(k: nat)
    ensures (k + MaxInt) % MaxInt == k % MaxInt
  {
    var q, r := k / MaxInt, k % MaxInt;
    assert k + MaxInt == (q + 1) * MaxInt + r;
    assert 0 <= r < MaxInt;
  }

  /** The process-wide counter LAST_ID, passed to each task it numbers. */
  class IdCounter {
    var last: int

    ghost predicate Valid()
      reads this
    {
      0 <= last <= MaxInt
    }

    constructor ()
      ensures Valid() && last == 0
    {
      last := 0;
    }

    /** `assignId`: compare-and-set MAX_VALUE to 0, then get-and-increment. */
    method Assign() returns (id: int)
      requires Valid()
      modifies this
      ensures Valid()
      ensures (id, last) == AssignId(old(last))
    {
      if last == MaxInt {
        last := 0;
      }
      id := last;
      last := last + 1;
    }
  }
}
