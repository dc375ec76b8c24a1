/**
 The operations that src/common/sem.c performs with the semaphore locked, on the semaphore itself:
 posting, trying and posting to everybody who waits.
 */
module Semaphore {

  /** Who waits; the newest first, as on the sleep list. */
  type Waiter = nat

  class Semaphore {
    var val: int
    var sleeplist: seq<Waiter>
    ghost var activated: seq<Waiter>   // in the order of activate_proc

    /** A negative value is the number of processes on the sleep list. */
    ghost predicate Valid()
      reads this
    {
      |sleeplist| == if val < 0 then -val else 0
    }

    /** init_sem. */
    constructor (val: nat)
      ensures Valid() && this.val == val && sleeplist == [] && activated == []
    {
      this.val := val;
      sleeplist := [];
      activated := [];
    }

    /** The part of _wait_sem before sched. */
    method Join(me: Waiter) returns (granted: bool)
      requires Valid()
      modifies this
      ensures Valid() && val == old(val) - 1 && activated == old(activated)
      ensures granted <==> old(val) > 0
      ensures sleeplist == if granted then old(sleeplist) else [me] + old(sleeplist)
    {
      val := val - 1;
      granted := val >= 0;
      if !granted {
        sleeplist := [me] + sleeplist;
      }
    }

    /** _post_sem: the process that has waited longest, if any, is activated. */
    method Post()
      requires Valid()
      modifies this
      ensures Valid() && val == old(val) + 1
      ensures old(val) >= 0 ==> sleeplist == old(sleeplist) && activated == old(activated)
      ensures old(val) < 0 ==>
                && old(sleeplist) == sleeplist + [old(sleeplist)[|old(sleeplist)| - 1]]
                && activated == old(activated) + [old(sleeplist)[|old(sleeplist)| - 1]]
    {
      val := val + 1;
      if val <= 0 {
        var n := |sleeplist| - 1;
        activated := activated + [sleeplist[n]];
        sleeplist := sleeplist[..n];
      }
    }

    /** _get_sem. */
    method Get() returns (got: bool)
      requires Valid()
      modifies this
      ensures Valid() && sleeplist == old(sleeplist) && activated == old(activated)
      ensures got <==> old(val) > 0
      ensures val == if got then old(val) - 1 else old(val)
    {
      got := false;
      if val > 0 {
        val := val - 1;
        got := true;
      }
    }

    /** get_all_sem. */
    method GetAll() returns (n: int)
      requires Valid()
      modifies this
      ensures Valid() && sleeplist == old(sleeplist) && activated == old(activated)
      ensures n >= 0 && val == old(val) - n && val <= 0 && (old(val) <= 0 ==> n == 0)
    {
      n := 0;
      if val > 0 {
        n := val;
        val := 0;
      }
    }

    /** post_all_sem: everybody who waits is activated, longest waiting first; the value does not grow. */
    method PostAll() returns (n: int)
      requires Valid()
      modifies this
      ensures Valid() && n == |old(sleeplist)| && sleeplist == []
      ensures activated == old(activated) + Backwards(old(sleeplist))
      ensures val == if old(val) < 0 then 0 else old(val)
    {
      n := -1;
      var got := false;
      while !got
        invariant Valid() && n >= -1 && (got ==> n >= 0)
        invariant sleeplist <= old(sleeplist)
        invariant activated + Backwards(sleeplist) == old(activated) + Backwards(old(sleeplist))
        invariant got ==> sleeplist == [] && val == (if old(val) < 0 then 0 else old(val)) && n == |old(sleeplist)|
        invariant !got && old(val) < 0 ==> val <= 0 && n + 1 == |old(sleeplist)| - |sleeplist|
        invariant !got && old(val) >= 0 ==> val == old(val) && n == -1
        decreases !got, |sleeplist|, if got || val < 0 then 0 else 1
      {
        ghost var before := sleeplist;
        Post();
        if before != sleeplist {
          BackwardsSnoc(sleeplist, before[|before| - 1]);
        }
        n := n + 1;
        got := Get();
      }
    }
  }

  function Backwards(s: seq<Waiter>): (r: seq<Waiter>)
    ensures |r| == |s| && forall i :: 0 <= i < |s| ==> r[i] == s[|s| - 1 - i]
  {
    if s == [] then [] else Backwards(s[1..]) + [s[0]]
  }

  lemma BackwardsSnoc(s: seq<Waiter>, w: Waiter)
    ensures Backwards(s + [w]) == [w] + Backwards(s)
  {
    var a, b := Backwards(s + [w]), [w] + Backwards(s);
    assert |a| == |b|;
    assert forall i :: 0 <= i < |a| ==> a[i] == b[i];
  }
}
