/**
 The arrival-rate pacer (internal/worker/executor/arrival.go): every 50 ms it turns the
 ramp's rate into whole iterations, carrying the fraction over to the next tick.
 */
module Pacer {
  import opened Collections
  import opened LoadShape
  import opened VuPool

  const PACER_SECONDS := 0.05

  /** What the pacing law is about: the carried fraction and the iterations released so far. */
  datatype Pace = Pace(acc: real, released: nat)

  function PaceStep(p: Pace, rate: real): Pace {
    var due := p.acc + rate * PACER_SECONDS;
    var n := Trunc(due);
    Pace(due - n as real, p.released + if n > 0 then n else 0)
  }

  class ArrivalExecutor {
    const maxVUs: int
    var acc: real
    var jobs: nat       // iterations waiting in the channel
    var enqueued: nat
    var dropped: nat
    var pool: nat

    ghost predicate Valid()
      reads this
    {
      maxVUs > 0 && jobs <= maxVUs && pool <= maxVUs
    }

    ghost function Pacing(): Pace
      reads this
    {
      Pace(acc, enqueued + dropped)
    }

    /** A pool size of zero or less means five seconds of the peak rate plus a floor. */
    constructor (requested: int, stages: seq<Stage>, ceiling: int)
      ensures Valid() && Pacing() == Pace(0.0, 0) && jobs == 0 && pool == 1
      ensures requested > 0 ==> maxVUs == ClampVUs(requested, ceiling)
      ensures requested <= 0 ==> exists peak :: IsPeak(stages, peak) && maxVUs == ClampVUs(peak * 5 + 100, ceiling)
    {
      var size := requested;
      if size <= 0 {
        var peak := PeakRps(stages);
        size := peak * 5 + 100;
      }
      maxVUs := ClampVUs(size, ceiling);
      acc, jobs, enqueued, dropped, pool := 0.0, 0, 0, 0, 1;
    }

    /**
     One pacer tick at the given rate. Before the i-th attempt the workers may have taken
     `taken(i)` jobs off the channel; `busy` is how many are executing when the pool is sized.
     */
    method Tick(rate: real, taken: nat -> nat, busy: nat)
      requires Valid()
      modifies this
      ensures Valid()
      ensures Pacing() == PaceStep(old(Pacing()), rate)
      ensures enqueued >= old(enqueued) && dropped >= old(dropped)
      ensures dropped > old(dropped) ==> Pacing().released - old(Pacing().released) > maxVUs - old(jobs)
      ensures pool == var need := (if busy + jobs + 1 > maxVUs then maxVUs else busy + jobs + 1);
                      if old(pool) < need then need else old(pool)
    {
      acc := acc + rate * PACER_SECONDS;
      var n := Trunc(acc);
      acc := acc - n as real;
      var i := 0;
      while i < n
        invariant 0 <= i && (i <= n || (n < 0 && i == 0))
        invariant Valid()
        invariant enqueued + dropped == old(enqueued + dropped) + i
        invariant enqueued >= old(enqueued) && dropped >= old(dropped)
        invariant jobs <= old(jobs) + i
        invariant dropped > old(dropped) ==> i > maxVUs - old(jobs)
        invariant acc == PaceStep(old(Pacing()), rate).acc && pool == old(pool)
      {
        jobs := if taken(i) <= jobs then jobs - taken(i) else 0;
        if jobs < maxVUs {
          jobs, enqueued := jobs + 1, enqueued + 1;
        } else {
          dropped := dropped + 1;
        }
        i := i + 1;
      }
      var need := busy + jobs + 1;
      if need > maxVUs {
        need := maxVUs;
      }
      while pool < need
        modifies this`pool
        invariant old(pool) <= pool && (pool == old(pool) || pool <= need)
      {
        pool := pool + 1;
      }
    }
  }

  // ---------------------------------------------------------- whole schedules

  ghost function PaceAll(rates: seq<real>): Pace {
    if rates == [] then Pace(0.0, 0)
    else PaceStep(PaceAll(rates[..|rates| - 1]), rates[|rates| - 1])
  }

  ghost function Scaled(rates: seq<real>): seq<real> {
    seq(|rates|, j requires 0 <= j < |rates| => rates[j] * 0.05)
  }

  lemma PaceStepKeeps(p: Pace, rate: real)
    requires 0.0 <= p.acc < 1.0 && rate >= 0.0
    ensures var q := PaceStep(p, rate);
            0.0 <= q.acc < 1.0
            && q.released as real + q.acc == p.released as real + p.acc + rate * PACER_SECONDS
  {
  }

  /** Over any schedule of rates a pacer has released exactly the floor of what was asked. */
  lemma {:induction false} ReleasesTheFloor(rates: seq<real>)
    requires forall j :: 0 <= j < |rates| ==> rates[j] >= 0.0
    ensures 0.0 <= PaceAll(rates).acc < 1.0
    ensures PaceAll(rates).released as real + PaceAll(rates).acc == RealSum(Scaled(rates))
    ensures PaceAll(rates).released == RealSum(Scaled(rates)).Floor
  {
    if rates != [] {
      var front, last := rates[..|rates| - 1], rates[|rates| - 1];
      ReleasesTheFloor(front);
      PaceStepKeeps(PaceAll(front), last);
      assert Scaled(rates) == Scaled(front) + [last * PACER_SECONDS];
      RealSumAppend(Scaled(front), last * PACER_SECONDS);
    }
  }

  /** The rates a ramp prescribes at the given tick times. */
  ghost function RatesAt(stages: seq<Stage>, times: seq<int>): seq<real> {
    seq(|times|, j requires 0 <= j < |times| => Level(RpsLegs(stages), times[j], 0, 0.0))
  }

  ghost function FleetReleased(global: seq<Stage>, n: nat, times: seq<int>): seq<int>
    requires n > 0
  {
    seq(n, i requires 0 <= i < n => PaceAll(RatesAt(SliceOf(global, n, i), times)).released)
  }

  ghost function FleetAcc(global: seq<Stage>, n: nat, times: seq<int>): seq<real>
    requires n > 0
  {
    seq(n, i requires 0 <= i < n => PaceAll(RatesAt(SliceOf(global, n, i), times)).acc)
  }

  lemma RatesNonNegative(global: seq<Stage>, n: nat, i: nat, times: seq<int>)
    requires i < n && LegsNonNegative(RpsLegs(global))
    ensures forall j :: 0 <= j < |times| ==> RatesAt(SliceOf(global, n, i), times)[j] >= 0.0
  {
    SliceLegs(global, n, i);
    SliceLegsNonNegative(RpsLegs(global), n, i);
    forall j | 0 <= j < |times| ensures RatesAt(SliceOf(global, n, i), times)[j] >= 0.0 {
      LevelNonNegative(LegsOf(RpsLegs(global), n, i), times[j], 0, 0.0);
    }
  }

  lemma {:induction false} SumOfParts(a: seq<int>, b: seq<real>, c: seq<int>, d: seq<real>, e: seq<real>)
    requires |a| == |b| == |c| == |d| == |e|
    requires forall i :: 0 <= i < |a| ==> c[i] as real + d[i] == a[i] as real + b[i] + e[i] * PACER_SECONDS
    ensures Sum(c) as real + RealSum(d) == Sum(a) as real + RealSum(b) + RealSum(e) * PACER_SECONDS
  {
    if a != [] {
      SumOfParts(a[1..], b[1..], c[1..], d[1..], e[1..]);
    }
  }

  lemma FleetStep(global: seq<Stage>, n: nat, i: nat, times: seq<int>, front: seq<int>, last: int)
    requires i < n && LegsNonNegative(RpsLegs(global)) && times == front + [last]
    ensures FleetReleased(global, n, times)[i] as real + FleetAcc(global, n, times)[i]
         == FleetReleased(global, n, front)[i] as real + FleetAcc(global, n, front)[i]
            + WorkerRates(global, n, last)[i] * PACER_SECONDS
  {
    var slice := SliceOf(global, n, i);
    RatesNonNegative(global, n, i, times);
    RatesNonNegative(global, n, i, front);
    ReleasesTheFloor(RatesAt(slice, front));
    assert RatesAt(slice, times)[..|times| - 1] == RatesAt(slice, front);
    PaceStepKeeps(PaceAll(RatesAt(slice, front)), RatesAt(slice, times)[|times| - 1]);
  }

  /** Appending a tick adds the same amount to the fleet's total and to the global schedule. */
  lemma FleetTick(global: seq<Stage>, n: nat, times: seq<int>, front: seq<int>, last: int)
    requires n > 0 && LegsNonNegative(RpsLegs(global)) && times == front + [last]
    ensures Sum(FleetReleased(global, n, times)) as real + RealSum(FleetAcc(global, n, times))
         == Sum(FleetReleased(global, n, front)) as real + RealSum(FleetAcc(global, n, front))
            + Level(RpsLegs(global), last, 0, 0.0) * PACER_SECONDS
  {
    var rates := WorkerRates(global, n, last);
    var a, b := FleetReleased(global, n, front), FleetAcc(global, n, front);
    var c, d := FleetReleased(global, n, times), FleetAcc(global, n, times);
    forall i | 0 <= i < n ensures c[i] as real + d[i] == a[i] as real + b[i] + rates[i] * PACER_SECONDS {
      FleetStep(global, n, i, times, front, last);
    }
    SumOfParts(a, b, c, d, rates);
    assert forall k :: 0 <= k < |global| ==> RpsLegs(global)[k].target == global[k].targetRps;
    RatesAddUp(global, n, last);
  }

  lemma FleetAtRest(global: seq<Stage>, n: nat)
    requires n > 0
    ensures Sum(FleetReleased(global, n, [])) == 0 && RealSum(FleetAcc(global, n, [])) == 0.0
  {
    assert FleetAcc(global, n, []) == Zeros(n);
    ZerosSum(n);
    SumsStayEqual(FleetReleased(global, n, []), Zeros(n));
  }

  /** Across the fleet, released iterations plus carried fractions equal the global schedule. */
  lemma {:induction false} FleetConserves(global: seq<Stage>, n: nat, times: seq<int>)
    requires n > 0 && LegsNonNegative(RpsLegs(global))
    ensures Sum(FleetReleased(global, n, times)) as real + RealSum(FleetAcc(global, n, times))
         == RealSum(Scaled(RatesAt(global, times)))
    decreases |times|
  {
    if times == [] {
      FleetAtRest(global, n);
    } else {
      var front, last := times[..|times| - 1], times[|times| - 1];
      FleetConserves(global, n, front);
      FleetTick(global, n, times, front, last);
      var due := Level(RpsLegs(global), last, 0, 0.0) * PACER_SECONDS;
      assert Scaled(RatesAt(global, times)) == Scaled(RatesAt(global, front)) + [due];
      RealSumAppend(Scaled(RatesAt(global, front)), due);
    }
  }

  lemma {:induction false} FractionsBelow(a: seq<real>)
    requires forall i :: 0 <= i < |a| ==> 0.0 <= a[i] < 1.0
    ensures 0.0 <= RealSum(a) && (a != [] ==> RealSum(a) < |a| as real)
  {
    if |a| > 1 {
      FractionsBelow(a[1..]);
    }
  }

  /**
   The sharded open model tracks the global schedule: n workers ticking together have
   released, at every point, less than n short of the global sum and never more than it.
   */
  lemma FleetTracksSchedule(global: seq<Stage>, n: nat, times: seq<int>)
    requires n > 0 && LegsNonNegative(RpsLegs(global))
    ensures var asked := RealSum(Scaled(RatesAt(global, times)));
            asked - n as real < Sum(FleetReleased(global, n, times)) as real <= asked
  {
    FleetConserves(global, n, times);
    forall i | 0 <= i < n ensures 0.0 <= FleetAcc(global, n, times)[i] < 1.0 {
      RatesNonNegative(global, n, i, times);
      ReleasesTheFloor(RatesAt(SliceOf(global, n, i), times));
    }
    FractionsBelow(FleetAcc(global, n, times));
  }
}
