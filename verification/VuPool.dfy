/** The closed-model VU pool (internal/worker/executor/executor.go and limits.go). */
module VuPool {
  import opened Collections

  /** A ceiling of zero or less means no ceiling. */
  function ClampVUs(target: int, cap: int): (r: int)
    ensures r <= target && (cap > 0 ==> r <= cap)
    ensures r == target || (cap > 0 && r == cap)
  {
    if cap > 0 && target > cap then cap else target
  }

  class Executor {
    const maxVUs: int
    var vus: seq<int>        // live handles, oldest first
    var nextID: nat
    var stopped: bool
    var cancelled: seq<int>  // handles whose context was cancelled, in that order

    /** Every id handed out is held by exactly one handle, live or cancelled. */
    ghost predicate Valid()
      reads this
    {
      multiset(cancelled) + multiset(vus) == multiset(Ids(nextID))
    }

    constructor (cap: int)
      ensures Valid() && vus == [] && maxVUs == cap && !stopped
    {
      maxVUs := cap;
      vus, nextID, stopped, cancelled := [], 0, false, [];
    }

    /** How many VUs a call to ScaleTo leaves alive. */
    ghost function Goal(target: int): int
      reads this
    {
      ClampVUs(if stopped then 0 else target, maxVUs)
    }

    method SpawnLocked()
      requires Valid()
      modifies this`nextID, this`vus
      ensures Valid() && nextID == old(nextID) + 1 && vus == old(vus) + [nextID]
    {
      nextID := nextID + 1;
      vus := vus + [nextID];
      assert Ids(nextID) == Ids(old(nextID)) + [nextID];
    }

    method CancelLast()
      requires Valid() && vus != []
      modifies this`vus, this`cancelled
      ensures Valid() && vus == old(vus)[..|old(vus)| - 1]
      ensures cancelled == old(cancelled) + [old(vus)[|old(vus)| - 1]]
    {
      var last := vus[|vus| - 1];
      assert vus == vus[..|vus| - 1] + [last];
      vus := vus[..|vus| - 1];
      cancelled := cancelled + [last];
    }

    /**
     Leaves exactly the clamped target alive: growing appends fresh ids and cancels nobody,
     shrinking cancels the youngest first and keeps the rest. A negative goal empties the pool
     and then indexes the empty slice, which panics.
     */
    method ScaleTo(target: int) returns (panics: bool)
      requires Valid()
      modifies this`nextID, this`vus, this`cancelled
      ensures Valid() && (panics <==> Goal(target) < 0)
      ensures |vus| == if panics then 0 else Goal(target)
      ensures stopped ==> |vus| == 0 && !panics
      ensures !stopped && target >= 0 && (maxVUs <= 0 || target <= maxVUs) ==> |vus| == target
      ensures !stopped && 0 < maxVUs < target ==> |vus| == maxVUs
      ensures |vus| >= |old(vus)| ==> old(vus) <= vus && cancelled == old(cancelled)
      ensures |vus| <= |old(vus)| ==>
                nextID == old(nextID) && Cut(old(vus), old(cancelled), vus, cancelled)
    {
      var goal := target;
      if stopped {
        goal := 0;
      }
      goal := ClampVUs(goal, maxVUs);
      GrowTo(goal);
      panics := ShrinkTo(goal);
    }

    method GrowTo(goal: int)
      requires Valid()
      modifies this`nextID, this`vus
      ensures Valid() && old(vus) <= vus
      ensures if |old(vus)| < goal then |vus| == goal else vus == old(vus) && nextID == old(nextID)
    {
      while |vus| < goal
        invariant Valid() && old(vus) <= vus
        invariant if |old(vus)| < goal then |vus| <= goal else vus == old(vus) && nextID == old(nextID)
      {
        SpawnLocked();
      }
    }

    method ShrinkTo(goal: int) returns (panics: bool)
      requires Valid()
      modifies this`vus, this`cancelled
      ensures Valid() && (panics <==> goal < 0)
      ensures Cut(old(vus), old(cancelled), vus, cancelled)
      ensures |vus| == if goal < 0 then 0 else if |old(vus)| > goal then goal else |old(vus)|
    {
      ghost var was, gone := vus, cancelled;
      while |vus| > goal
        invariant Valid() && Cut(was, gone, vus, cancelled)
        invariant |was| > goal >= 0 ==> |vus| >= goal
        invariant |was| <= goal ==> |vus| == |was|
        decreases |vus|
      {
        if |vus| == 0 {
          return true;
        }
        CutOneMore(was, gone, vus, cancelled);
        CancelLast();
      }
      return false;
    }
  }

  function Ids(n: nat): seq<int> {
    seq(n, i => i + 1)
  }

  function Reversed(s: seq<int>): seq<int> {
    if s == [] then [] else Reversed(s[1..]) + [s[0]]
  }

  /** `live` is what is left of `was` after its tail was cancelled, youngest first. */
  ghost predicate Cut(was: seq<int>, gone: seq<int>, live: seq<int>, cancelled: seq<int>) {
    |live| <= |was| && live == was[..|live|] && cancelled == gone + Reversed(was[|live|..])
  }

  lemma CutOneMore(was: seq<int>, gone: seq<int>, live: seq<int>, cancelled: seq<int>)
    requires Cut(was, gone, live, cancelled) && live != []
    ensures Cut(was, gone, live[..|live| - 1], cancelled + [live[|live| - 1]])
  {
    var n := |live|;
    assert was[n - 1..][1..] == was[n..];
  }

  /** No id is both live and cancelled, and none is held twice. */
  lemma HandlesAreDistinct(cancelled: seq<int>, vus: seq<int>, n: nat)
    requires multiset(cancelled) + multiset(vus) == multiset(Ids(n))
    ensures NoDup(cancelled + vus) && |cancelled| + |vus| == n
    ensures forall id :: id in cancelled + vus <==> 1 <= id <= n
  {
    IdsDistinct(n);
    var all := cancelled + vus;
    assert multiset(all) == multiset(Ids(n));
    assert |multiset(all)| == |multiset(Ids(n))|;
    forall i, j | 0 <= i < j < |all| ensures all[i] != all[j] {
      assert all == all[..i] + [all[i]] + all[i + 1..j] + [all[j]] + all[j + 1..];
      assert multiset(all)[all[i]] >= multiset{all[i], all[j]}[all[i]];
    }
    forall id ensures id in all <==> 1 <= id <= n {
      assert id in all <==> multiset(all)[id] > 0;
    }
  }

  lemma {:induction false} IdsDistinct(n: nat)
    ensures forall id :: multiset(Ids(n))[id] == if 1 <= id <= n then 1 else 0
  {
    if n > 0 {
      IdsDistinct(n - 1);
      assert Ids(n) == Ids(n - 1) + [n];
    }
  }
}
