/**
 The ramp of a run: splitting it over workers (internal/coordinator/scheduler) and
 reading a worker's slice at an instant (internal/worker/executor/ramp.go).

 Times are nanoseconds, as in Go's time.Duration; float64 is modelled by `real`.
 */
module LoadShape {
  import opened Collections

  datatype Stage = Stage(durationMs: int, targetVus: int, targetRps: int)

  const NANOS_PER_MS := 1_000_000

  // ---------------------------------------------------------------- splitting

  /** Go's integer division and remainder truncate toward zero. */
  function TruncDiv(a: int, n: int): int
    requires n > 0
  {
    if a >= 0 then a / n else -((-a) / n)
  }

  function TruncMod(a: int, n: int): int
    requires n > 0
  {
    a - n * TruncDiv(a, n)
  }

  function Share(total: int, n: int, i: int): int
    requires n > 0
  {
    TruncDiv(total, n) + if i < TruncMod(total, n) then 1 else 0
  }

  function Shares(total: int, n: nat): seq<int> {
    seq(n, i requires 0 <= i < n => Share(total, n, i))
  }

  method SplitEven(total: int, n: nat) returns (res: seq<int>)
    ensures res == Shares(total, n)
  {
    var a := new int[n];
    if n == 0 {
      return [];
    }
    var base := TruncDiv(total, n);
    var rem := TruncMod(total, n);
    var i := 0;
    while i < n
      invariant 0 <= i <= n
      invariant forall k :: 0 <= k < i ==> a[k] == Share(total, n, k)
    {
      a[i] := base;
      if i < rem {
        a[i] := a[i] + 1;
      }
      i := i + 1;
    }
    res := a[..];
  }

  /** A multiple of n is zero or at least n away from it. */
  lemma MultiplesApart(n: int, k: int)
    requires n > 0
    ensures (k >= 1 ==> n * k >= n) && (k <= -1 ==> n * k <= -n)
  {
    if k >= 1 {
      assert n * k == n + n * (k - 1) && n * (k - 1) >= 0;
    } else if k <= -1 {
      assert n * k == -n + n * (k + 1) && n * (k + 1) <= 0;
    }
  }

  lemma RemainderIsUnique(a: int, n: int, q: int, r: int)
    requires n > 0 && a == n * q + r && 0 <= r < n
    ensures a % n == r
  {
    var p, m := a / n, a % n;
    assert a == n * p + m;
    assert n * (q - p) == m - r by {
      assert n * (q - p) == n * q - n * p;
    }
    MultiplesApart(n, q - p);
  }

  lemma NegativeRemainder(a: int, n: int)
    requires n > 0 && a < 0
    ensures TruncMod(a, n) == -((-a) % n)
    ensures TruncMod(a, n) == 0 <==> a % n == 0
  {
    var q, r := (-a) / n, (-a) % n;
    assert -a == n * q + r;
    assert n * (-q) == -(n * q);
    if r == 0 {
      RemainderIsUnique(a, n, -q, 0);
    } else {
      assert n * (-q - 1) == n * (-q) - n;
      RemainderIsUnique(a, n, -q - 1, n - r);
    }
  }

  lemma TruncModRange(a: int, n: int)
    requires n > 0
    ensures a >= 0 ==> 0 <= TruncMod(a, n) < n && 0 <= TruncDiv(a, n)
    ensures a < 0 ==> -n < TruncMod(a, n) <= 0
    ensures a < 0 ==> (TruncMod(a, n) == 0 <==> a % n == 0)
  {
    if a < 0 {
      NegativeRemainder(a, n);
    } else {
      var q, r := a / n, a % n;
      assert a == n * q + r && TruncDiv(a, n) == q && TruncMod(a, n) == r;
      MultiplesApart(n, q);
    }
  }

  /** The first `m` shares: `m` times the base plus one for each index below the remainder. */
  lemma {:induction false} SharesPrefixSum(total: int, n: nat, m: nat)
    requires 0 < n && m <= n
    ensures Sum(Shares(total, n)[..m])
         == m * TruncDiv(total, n)
            + (if TruncMod(total, n) <= 0 then 0 else if m <= TruncMod(total, n) then m else TruncMod(total, n))
  {
    if m > 0 {
      SharesPrefixSum(total, n, m - 1);
      assert Shares(total, n)[..m] == Shares(total, n)[..m - 1] + [Share(total, n, m - 1)];
      SumAppend(Shares(total, n)[..m - 1], Share(total, n, m - 1));
    }
  }

  /**
   The split is exact precisely for the totals a caller can recognise beforehand:
   non-negative ones, and negative ones that n divides.
   */
  lemma SplitExactIff(total: int, n: nat)
    requires n > 0
    ensures Sum(Shares(total, n)) == total <==> total >= 0 || total % n == 0
  {
    SharesPrefixSum(total, n, n);
    assert Shares(total, n)[..n] == Shares(total, n);
    TruncModRange(total, n);
  }

  /** The shares are as even as possible: they fall by at most one, front to back. */
  lemma SplitIsEven(total: int, n: nat, i: nat, j: nat)
    requires i < j < n
    ensures Shares(total, n)[j] <= Shares(total, n)[i] <= Shares(total, n)[j] + 1
    ensures total >= 0 ==> 0 <= Shares(total, n)[j]
  {
    TruncModRange(total, n);
  }

  function SliceStage(g: Stage, n: int, i: int): Stage
    requires n > 0
  {
    Stage(g.durationMs, Share(g.targetVus, n, i), Share(g.targetRps, n, i))
  }

  /** The ramp of worker i out of n. */
  function SliceOf(global: seq<Stage>, n: int, i: int): seq<Stage>
    requires n > 0
  {
    seq(|global|, s requires 0 <= s < |global| => SliceStage(global[s], n, i))
  }

  function Slices(global: seq<Stage>, n: int): seq<seq<Stage>> {
    if n <= 0 then [] else seq(n, i requires 0 <= i < n => SliceOf(global, n, i))
  }

  method SliceRamp(global: seq<Stage>, n: int) returns (out: seq<seq<Stage>>)
    ensures out == Slices(global, n)
  {
    if n <= 0 {
      return [];
    }
    out := seq(n, _ => []);
    var s := 0;
    while s < |global|
      invariant 0 <= s <= |global|
      invariant |out| == n
      invariant forall i :: 0 <= i < n ==> out[i] == SliceOf(global, n, i)[..s]
    {
      var vus := SplitEven(global[s].targetVus, n);
      var rps := SplitEven(global[s].targetRps, n);
      ghost var before := out;
      var i := 0;
      while i < n
        invariant 0 <= i <= n && |out| == n
        invariant forall k :: i <= k < n ==> out[k] == before[k]
        invariant forall k :: 0 <= k < i ==> out[k] == SliceOf(global, n, k)[..s + 1]
      {
        out := out[i := out[i] + [Stage(global[s].durationMs, vus[i], rps[i])]];
        assert SliceOf(global, n, i)[..s + 1] == SliceOf(global, n, i)[..s] + [SliceOf(global, n, i)[s]];
        i := i + 1;
      }
      s := s + 1;
    }
    assert forall i :: 0 <= i < n ==> SliceOf(global, n, i)[..|global|] == SliceOf(global, n, i);
  }

  function PickWorkers<T>(candidates: seq<T>, desired: int): (picked: seq<T>)
    ensures picked <= candidates
    ensures |picked| == if 0 < desired <= |candidates| then desired else |candidates|
  {
    if desired <= 0 || desired >= |candidates| then candidates else candidates[..desired]
  }

  // ------------------------------------------------------------ interpolation

  /** One coordinate of a ramp: how long a stage lasts and the level it reaches. */
  datatype Leg = Leg(durationMs: int, target: int)

  function RpsLegs(stages: seq<Stage>): seq<Leg> {
    seq(|stages|, s requires 0 <= s < |stages| => Leg(stages[s].durationMs, stages[s].targetRps))
  }

  function VuLegs(stages: seq<Stage>): seq<Leg> {
    seq(|stages|, s requires 0 <= s < |stages| => Leg(stages[s].durationMs, stages[s].targetVus))
  }

  function Fraction(t: int, acc: int, dur: int): real
    requires dur != 0
  {
    var frac := (t - acc) as real / dur as real;
    if frac < 0.0 then 0.0 else frac
  }

  /** The point a fraction of the way from one level to the next. */
  function Mix(prev: real, target: real, frac: real): real {
    prev + frac * (target - prev)
  }

  /** The level at time t, `acc` being when the first leg starts and `prev` the level there. */
  function Level(legs: seq<Leg>, t: int, acc: int, prev: real): real {
    if legs == [] then prev
    else
      var dur := legs[0].durationMs * NANOS_PER_MS;
      var target := legs[0].target as real;
      if dur == 0 then target
      else if t < acc + dur then Mix(prev, target, Fraction(t, acc, dur))
      else Level(legs[1..], t, acc + dur, target)
  }

  method RateAt(stages: seq<Stage>, t: int) returns (rate: real)
    ensures rate == Level(RpsLegs(stages), t, 0, 0.0)
  {
    if |stages| == 0 {
      return 0.0;
    }
    var prev, acc := 0.0, 0;
    var i := 0;
    while i < |stages|
      invariant 0 <= i <= |stages|
      invariant Level(RpsLegs(stages), t, 0, 0.0) == Level(RpsLegs(stages)[i..], t, acc, prev)
    {
      var dur := stages[i].durationMs * NANOS_PER_MS;
      var target := stages[i].targetRps as real;
      assert RpsLegs(stages)[i..][1..] == RpsLegs(stages)[i + 1..];
      if t < acc + dur || dur == 0 {
        if dur == 0 {
          return target;
        }
        var frac := (t - acc) as real / dur as real;
        if frac < 0.0 {
          frac := 0.0;
        }
        return Mix(prev, target, frac);
      }
      acc := acc + dur;
      prev := target;
      i := i + 1;
    }
    return prev;
  }

  /** Go's conversion of a float to an integer drops the fraction. */
  function Trunc(x: real): int {
    if x >= 0.0 then x.Floor else -((-x).Floor)
  }

  /** TargetAt over the legs: the level, rounded where it is interpolated. */
  function Rounded(legs: seq<Leg>, t: int, acc: int, prev: int): int {
    if legs == [] then prev
    else
      var dur := legs[0].durationMs * NANOS_PER_MS;
      if dur == 0 then legs[0].target
      else if t < acc + dur then
        Trunc(Mix(prev as real, legs[0].target as real, Fraction(t, acc, dur)) + 0.5)
      else Rounded(legs[1..], t, acc + dur, legs[0].target)
  }

  method TargetAt(stages: seq<Stage>, t: int) returns (vus: int)
    ensures vus == Rounded(VuLegs(stages), t, 0, 0)
  {
    if |stages| == 0 {
      return 0;
    }
    var prevTarget, acc := 0, 0;
    var i := 0;
    while i < |stages|
      invariant 0 <= i <= |stages|
      invariant Rounded(VuLegs(stages), t, 0, 0) == Rounded(VuLegs(stages)[i..], t, acc, prevTarget)
    {
      var dur := stages[i].durationMs * NANOS_PER_MS;
      assert VuLegs(stages)[i..][1..] == VuLegs(stages)[i + 1..];
      if t < acc + dur || dur == 0 {
        if dur == 0 {
          return stages[i].targetVus;
        }
        var frac := (t - acc) as real / dur as real;
        if frac < 0.0 {
          frac := 0.0;
        }
        var val := Mix(prevTarget as real, stages[i].targetVus as real, frac);
        return Trunc(val + 0.5);
      }
      acc := acc + dur;
      prevTarget := stages[i].targetVus;
      i := i + 1;
    }
    return prevTarget;
  }

  /** The largest target rate, or 0 if none is positive. */
  ghost predicate IsPeak(stages: seq<Stage>, peak: int) {
    && peak >= 0
    && (forall s :: s in stages ==> s.targetRps <= peak)
    && (peak == 0 || exists s :: s in stages && s.targetRps == peak)
  }

  method PeakRps(stages: seq<Stage>) returns (peak: int)
    ensures IsPeak(stages, peak)
  {
    peak := 0;
    for i := 0 to |stages|
      invariant peak >= 0
      invariant forall k :: 0 <= k < i ==> stages[k].targetRps <= peak
      invariant peak == 0 || exists s :: s in stages && s.targetRps == peak
    {
      if stages[i].targetRps > peak {
        peak := stages[i].targetRps;
        assert stages[i] in stages;
      }
    }
  }

  // ------------------------------------------------------------ inside a stage

  /** Of the way between two targets the level has covered the share of the duration that has elapsed. */
  ghost predicate Straight(level: real, from: int, to: int, elapsed: int, durationMs: int) {
    (level - from as real) * (durationMs * 1_000_000) as real == elapsed as real * (to - from) as real
  }

  /** Until a stage starts its ramp stays where it was; from then on it covers the way in proportion to time. */
  lemma FirstStageIsStraight(legs: seq<Leg>, t: int, acc: int, prev: int)
    requires legs != [] && legs[0].durationMs > 0 && t < acc + legs[0].durationMs * NANOS_PER_MS
    ensures var level := Level(legs, t, acc, prev as real);
            if t <= acc then level == prev as real
            else Straight(level, prev, legs[0].target, t - acc, legs[0].durationMs)
  {
    var dur, way := (legs[0].durationMs * NANOS_PER_MS) as real, (legs[0].target - prev) as real;
    var frac := (t - acc) as real / dur;
    assert frac * dur == (t - acc) as real;
    if t <= acc {
      if frac > 0.0 {
        TimesPositive(frac, dur);
      }
      assert Fraction(t, acc, legs[0].durationMs * NANOS_PER_MS) == 0.0;
    } else {
      if frac < 0.0 {
        TimesPositive(-frac, dur);
      }
      assert Level(legs, t, acc, prev as real) - prev as real == frac * way;
      assert frac * way * dur == frac * dur * way;
    }
  }

  /** Go's conversion, after adding a half, picks the nearest whole number, the larger of two. */
  lemma FirstStageIsRounded(legs: seq<Leg>, t: int, acc: int, prev: int)
    requires legs != [] && legs[0].durationMs > 0 && t < acc + legs[0].durationMs * NANOS_PER_MS
    ensures var level := Level(legs, t, acc, prev as real);
            level >= -0.5 ==> Rounded(legs, t, acc, prev) == (level + 0.5).Floor
  {
  }

  // ------------------------------------------------- the slices and the whole

  function TotalNanos(legs: seq<Leg>): int {
    if legs == [] then 0 else legs[0].durationMs * NANOS_PER_MS + TotalNanos(legs[1..])
  }

  ghost predicate LegsNonNegative(legs: seq<Leg>) {
    forall k :: 0 <= k < |legs| ==> legs[k].durationMs >= 0 && legs[k].target >= 0
  }

  /** Worker i's share of one coordinate of the ramp. */
  function LegsOf(legs: seq<Leg>, n: int, i: int): seq<Leg>
    requires n > 0
  {
    seq(|legs|, k requires 0 <= k < |legs| => Leg(legs[k].durationMs, Share(legs[k].target, n, i)))
  }

  lemma SliceLegs(global: seq<Stage>, n: int, i: int)
    requires n > 0
    ensures RpsLegs(SliceOf(global, n, i)) == LegsOf(RpsLegs(global), n, i)
    ensures VuLegs(SliceOf(global, n, i)) == LegsOf(VuLegs(global), n, i)
  {
  }

  function ShareReals(total: int, n: nat): seq<real>
    requires n > 0
  {
    seq(n, i requires 0 <= i < n => Share(total, n, i) as real)
  }

  lemma {:induction false} RealSumOfInts(s: seq<int>, r: seq<real>)
    requires |r| == |s| && forall i :: 0 <= i < |s| ==> r[i] == s[i] as real
    ensures RealSum(r) == Sum(s) as real
  {
    if s != [] {
      RealSumOfInts(s[1..], r[1..]);
    }
  }

  lemma ShareRealsSum(total: int, n: nat)
    requires n > 0 && total >= 0
    ensures RealSum(ShareReals(total, n)) == total as real
  {
    SplitExactIff(total, n);
    RealSumOfInts(Shares(total, n), ShareReals(total, n));
  }

  lemma {:induction false} RealSumAffine(a: seq<real>, b: seq<real>, f: real, c: seq<real>)
    requires |a| == |b| == |c|
    requires forall i :: 0 <= i < |a| ==> c[i] == Mix(a[i], b[i], f)
    ensures RealSum(c) == Mix(RealSum(a), RealSum(b), f)
  {
    if a != [] {
      RealSumAffine(a[1..], b[1..], f, c[1..]);
      var x, y, p, q := a[0], b[0], RealSum(a[1..]), RealSum(b[1..]);
      assert f * ((y + q) - (x + p)) == f * (y - x) + f * (q - p);
    }
  }

  ghost function LevelsOf(legs: seq<Leg>, n: nat, t: int, acc: int, prevs: seq<real>): seq<real>
    requires n > 0 && |prevs| == n
  {
    seq(n, i requires 0 <= i < n => Level(LegsOf(legs, n, i), t, acc, prevs[i]))
  }

  lemma LevelsInside(legs: seq<Leg>, n: nat, t: int, acc: int, prevs: seq<real>)
    requires n > 0 && |prevs| == n && legs != [] && legs[0].target >= 0
    requires legs[0].durationMs != 0 && t < acc + legs[0].durationMs * NANOS_PER_MS
    ensures RealSum(LevelsOf(legs, n, t, acc, prevs)) == Level(legs, t, acc, RealSum(prevs))
  {
    var frac := Fraction(t, acc, legs[0].durationMs * NANOS_PER_MS);
    var shares := ShareReals(legs[0].target, n);
    ShareRealsSum(legs[0].target, n);
    var levels := LevelsOf(legs, n, t, acc, prevs);
    forall i | 0 <= i < n ensures levels[i] == Mix(prevs[i], shares[i], frac) {
      assert LegsOf(legs, n, i)[0].durationMs == legs[0].durationMs;
    }
    RealSumAffine(prevs, shares, frac, levels);
  }

  /** Interpolation is linear, so the slices' levels add up to the level of the whole. */
  lemma {:induction false} LevelsAddUp(legs: seq<Leg>, n: nat, t: int, acc: int, prevs: seq<real>)
    requires n > 0 && |prevs| == n
    requires forall k :: 0 <= k < |legs| ==> legs[k].target >= 0
    ensures RealSum(LevelsOf(legs, n, t, acc, prevs)) == Level(legs, t, acc, RealSum(prevs))
    decreases |legs|
  {
    if legs == [] {
      assert LevelsOf(legs, n, t, acc, prevs) == prevs;
    } else {
      var dur := legs[0].durationMs * NANOS_PER_MS;
      var shares := ShareReals(legs[0].target, n);
      ShareRealsSum(legs[0].target, n);
      assert forall i :: 0 <= i < n ==> LegsOf(legs, n, i)[1..] == LegsOf(legs[1..], n, i);
      if dur == 0 {
        assert LevelsOf(legs, n, t, acc, prevs) == shares;
      } else if t < acc + dur {
        LevelsInside(legs, n, t, acc, prevs);
      } else {
        LevelsAddUp(legs[1..], n, t, acc + dur, shares);
        assert LevelsOf(legs, n, t, acc, prevs) == LevelsOf(legs[1..], n, t, acc + dur, shares);
      }
    }
  }

  ghost function Zeros(n: nat): seq<real> {
    seq(n, _ => 0.0)
  }

  lemma {:induction false} ZerosSum(n: nat)
    ensures RealSum(Zeros(n)) == 0.0
  {
    if n > 0 {
      assert Zeros(n)[1..] == Zeros(n - 1);
      ZerosSum(n - 1);
    }
  }

  /** The rate each of n workers is asked for at time t. */
  ghost function WorkerRates(global: seq<Stage>, n: nat, t: int): seq<real>
    requires n > 0
  {
    seq(n, i requires 0 <= i < n => Level(RpsLegs(SliceOf(global, n, i)), t, 0, 0.0))
  }

  /** Open model: at every instant the workers' rates sum exactly to the global rate. */
  lemma RatesAddUp(global: seq<Stage>, n: nat, t: int)
    requires n > 0
    requires forall k :: 0 <= k < |global| ==> global[k].targetRps >= 0
    ensures RealSum(WorkerRates(global, n, t)) == Level(RpsLegs(global), t, 0, 0.0)
  {
    forall i | 0 <= i < n ensures RpsLegs(SliceOf(global, n, i)) == LegsOf(RpsLegs(global), n, i) {
      SliceLegs(global, n, i);
    }
    assert WorkerRates(global, n, t) == LevelsOf(RpsLegs(global), n, t, 0, Zeros(n));
    LevelsAddUp(RpsLegs(global), n, t, 0, Zeros(n));
    ZerosSum(n);
  }

  /** A ramp without negative entries is never asked to run at a negative level. */
  lemma {:induction false} LevelNonNegative(legs: seq<Leg>, t: int, acc: int, prev: real)
    requires LegsNonNegative(legs) && prev >= 0.0
    ensures Level(legs, t, acc, prev) >= 0.0
    decreases |legs|
  {
    if legs != [] {
      var dur := legs[0].durationMs * NANOS_PER_MS;
      var target := legs[0].target as real;
      if dur != 0 && t < acc + dur {
        FractionBelowOne(t, acc, dur);
        Between(prev, target, Fraction(t, acc, dur));
      } else if dur != 0 {
        LevelNonNegative(legs[1..], t, acc + dur, target);
      }
    }
  }

  lemma FractionBelowOne(t: int, acc: int, dur: int)
    requires dur > 0 && t < acc + dur
    ensures 0.0 <= Fraction(t, acc, dur) < 1.0
  {
    var frac := (t - acc) as real / dur as real;
    assert frac * dur as real == (t - acc) as real;
    if frac >= 1.0 {
      assert frac * dur as real >= dur as real;
    }
  }

  lemma Between(a: real, b: real, f: real)
    requires a >= 0.0 && b >= 0.0 && 0.0 <= f < 1.0
    ensures Mix(a, b, f) >= 0.0
  {
    assert a + f * (b - a) == (1.0 - f) * a + f * b;
    TimesNonNegative(1.0 - f, a);
    TimesNonNegative(f, b);
  }

  lemma TimesPositive(x: real, y: real)
    requires x > 0.0 && y > 0.0
    ensures x * y > 0.0
  {
  }

  lemma TimesNonNegative(x: real, y: real)
    requires x >= 0.0 && y >= 0.0
    ensures x * y >= 0.0
  {
  }

  // ------------------------------------------------------------ rounded levels

  /** Rounding moves a level by at most a half, and not at all once the ramp is over. */
  lemma {:induction false} RoundedNearLevel(legs: seq<Leg>, t: int, acc: int, prev: int)
    requires LegsNonNegative(legs) && prev >= 0
    ensures -0.5 <= Rounded(legs, t, acc, prev) as real - Level(legs, t, acc, prev as real) <= 0.5
    ensures t >= acc + TotalNanos(legs) ==> Rounded(legs, t, acc, prev) as real == Level(legs, t, acc, prev as real)
    ensures Rounded(legs, t, acc, prev) >= 0
    decreases |legs|
  {
    if legs != [] {
      var dur := legs[0].durationMs * NANOS_PER_MS;
      TotalNonNegative(legs[1..]);
      if dur != 0 && t < acc + dur {
        FractionBelowOne(t, acc, dur);
        Between(prev as real, legs[0].target as real, Fraction(t, acc, dur));
      } else if dur != 0 {
        RoundedNearLevel(legs[1..], t, acc + dur, legs[0].target);
      }
    }
  }

  ghost predicate NoNegativeDuration(legs: seq<Leg>) {
    forall k :: 0 <= k < |legs| ==> legs[k].durationMs >= 0
  }

  lemma {:induction false} TotalNonNegative(legs: seq<Leg>)
    requires NoNegativeDuration(legs)
    ensures TotalNanos(legs) >= 0
  {
    if legs != [] {
      TotalNonNegative(legs[1..]);
    }
  }

  /** The VU target each of n workers holds at time t. */
  ghost function WorkerTargets(global: seq<Stage>, n: nat, t: int): seq<int>
    requires n > 0
  {
    seq(n, i requires 0 <= i < n => Rounded(VuLegs(SliceOf(global, n, i)), t, 0, 0))
  }

  lemma {:induction false} SumsStayClose(a: seq<int>, b: seq<real>)
    requires |a| == |b|
    requires forall i :: 0 <= i < |a| ==> -0.5 <= a[i] as real - b[i] <= 0.5
    ensures -0.5 * |a| as real <= Sum(a) as real - RealSum(b) <= 0.5 * |a| as real
  {
    if a != [] {
      SumsStayClose(a[1..], b[1..]);
    }
  }

  lemma {:induction false} SumsStayEqual(a: seq<int>, b: seq<real>)
    requires |a| == |b|
    requires forall i :: 0 <= i < |a| ==> a[i] as real == b[i]
    ensures Sum(a) as real == RealSum(b)
  {
    if a != [] {
      SumsStayEqual(a[1..], b[1..]);
    }
  }

  lemma SliceLegsNonNegative(legs: seq<Leg>, n: nat, i: nat)
    requires i < n && LegsNonNegative(legs)
    ensures LegsNonNegative(LegsOf(legs, n, i))
  {
    forall k | 0 <= k < |legs| ensures Share(legs[k].target, n, i) >= 0 {
      TruncModRange(legs[k].target, n);
    }
  }

  lemma {:induction false} TotalOfSlice(legs: seq<Leg>, n: nat, i: nat)
    requires i < n
    ensures TotalNanos(LegsOf(legs, n, i)) == TotalNanos(legs)
  {
    if legs != [] {
      TotalOfSlice(legs[1..], n, i);
      assert LegsOf(legs, n, i)[1..] == LegsOf(legs[1..], n, i);
    }
  }

  /**
   Closed model: the workers' rounded targets stay within (n + 1) / 2 of the global
   rounded target at every instant, and agree with it exactly once the ramp has ended.
   */
  lemma TargetsStayClose(global: seq<Stage>, n: nat, t: int)
    requires n > 0 && LegsNonNegative(VuLegs(global))
    ensures var gap := Sum(WorkerTargets(global, n, t)) - Rounded(VuLegs(global), t, 0, 0);
            -(n + 1) <= 2 * gap <= n + 1
    ensures t >= TotalNanos(VuLegs(global)) ==>
              Sum(WorkerTargets(global, n, t)) == Rounded(VuLegs(global), t, 0, 0)
  {
    var legs := VuLegs(global);
    var levels := LevelsOf(legs, n, t, 0, Zeros(n));
    var targets := WorkerTargets(global, n, t);
    forall i | 0 <= i < n
      ensures -0.5 <= targets[i] as real - levels[i] <= 0.5
      ensures t >= TotalNanos(legs) ==> targets[i] as real == levels[i]
    {
      SliceLegs(global, n, i);
      SliceLegsNonNegative(legs, n, i);
      TotalOfSlice(legs, n, i);
      RoundedNearLevel(LegsOf(legs, n, i), t, 0, 0);
    }
    SumsStayClose(targets, levels);
    LevelsAddUp(legs, n, t, 0, Zeros(n));
    ZerosSum(n);
    RoundedNearLevel(legs, t, 0, 0);
    if t >= TotalNanos(legs) {
      SumsStayEqual(targets, levels);
    }
  }

  // ---------------------------------------------------- stages of no duration

  /** A stage of no duration ends the ramp: whatever follows it is never reached, on either curve. */
  lemma {:induction false} ZeroStageHidesTheRest(pre: seq<Leg>, zero: Leg, post: seq<Leg>, t: int, acc: int, prev: int, start: real)
    requires zero.durationMs == 0
    ensures Rounded(pre + [zero] + post, t, acc, prev) == Rounded(pre + [zero], t, acc, prev)
    ensures Level(pre + [zero] + post, t, acc, start) == Level(pre + [zero], t, acc, start)
    decreases |pre|
  {
    if pre == [] {
      assert pre + [zero] + post == [zero] + post;
    } else {
      var next, target := acc + pre[0].durationMs * NANOS_PER_MS, pre[0].target;
      assert (pre + [zero] + post)[1..] == pre[1..] + [zero] + post;
      assert (pre + [zero])[1..] == pre[1..] + [zero];
      ZeroStageHidesTheRest(pre[1..], zero, post, t, next, target, target as real);
    }
  }

  /** Every one of these stages takes time and is over at time t. */
  ghost predicate Past(legs: seq<Leg>, t: int, acc: int)
    decreases |legs|
  {
    legs != [] ==>
      var dur := legs[0].durationMs * NANOS_PER_MS;
      dur != 0 && t >= acc + dur && Past(legs[1..], t, acc + dur)
  }

  function LastTarget(legs: seq<Leg>, prev: int): int {
    if legs == [] then prev else legs[|legs| - 1].target
  }

  /**
   Stages that are over are left behind: the ramp is then what follows them, starting at the
   level they reached.
   */
  lemma {:induction false} LastingStagesPass(pre: seq<Leg>, post: seq<Leg>, t: int, acc: int, prev: int)
    requires Past(pre, t, acc)
    ensures var next, target := acc + TotalNanos(pre), LastTarget(pre, prev);
            && Rounded(pre + post, t, acc, prev) == Rounded(post, t, next, target)
            && Level(pre + post, t, acc, prev as real) == Level(post, t, next, target as real)
    decreases |pre|
  {
    if pre == [] {
      assert pre + post == post;
    } else {
      assert (pre + post)[1..] == pre[1..] + post;
      LastingStagesPass(pre[1..], post, t, acc + pre[0].durationMs * NANOS_PER_MS, pre[0].target);
    }
  }

  /**
   Inside any stage of a ramp, at time t between its start and its end, the level has covered
   the way from the previous target to its own in proportion to the time elapsed, and the VU
   target is that level rounded to the nearest whole number.
   */
  lemma StageIsStraight(pre: seq<Leg>, leg: Leg, post: seq<Leg>, t: int, acc: int, prev: int)
    requires Past(pre, t, acc) && leg.durationMs > 0
    requires acc + TotalNanos(pre) <= t < acc + TotalNanos(pre) + leg.durationMs * NANOS_PER_MS
    ensures var legs, start, from := pre + [leg] + post, acc + TotalNanos(pre), LastTarget(pre, prev);
            var level := Level(legs, t, acc, prev as real);
            && (if t == start then level == from as real else Straight(level, from, leg.target, t - start, leg.durationMs))
            && (level >= -0.5 ==> Rounded(legs, t, acc, prev) == (level + 0.5).Floor)
  {
    var rest, start, from := [leg] + post, acc + TotalNanos(pre), LastTarget(pre, prev);
    assert pre + [leg] + post == pre + rest && rest[0] == leg;
    LastingStagesPass(pre, rest, t, acc, prev);
    FirstStageIsStraight(rest, t, start, from);
    FirstStageIsRounded(rest, t, start, from);
  }

  /** Among stages of positive duration, whoever is past the last is past all. */
  lemma {:induction false} PastTheSum(legs: seq<Leg>, t: int, acc: int)
    requires (forall k :: 0 <= k < |legs| ==> legs[k].durationMs > 0) && t >= acc + TotalNanos(legs)
    ensures Past(legs, t, acc)
    decreases |legs|
  {
    if legs != [] {
      TotalNonNegative(legs[1..]);
      PastTheSum(legs[1..], t, acc + legs[0].durationMs * NANOS_PER_MS);
    }
  }

  /** The first stage of no duration, or the number of stages if all of them last. */
  function FirstZero(legs: seq<Leg>): (k: nat)
    ensures k <= |legs| && (k < |legs| ==> legs[k].durationMs == 0)
    ensures forall j :: 0 <= j < k ==> legs[j].durationMs != 0
  {
    if legs == [] || legs[0].durationMs == 0 then 0 else 1 + FirstZero(legs[1..])
  }

  lemma {:induction false} TotalSplits(a: seq<Leg>, b: seq<Leg>)
    ensures TotalNanos(a + b) == TotalNanos(a) + TotalNanos(b)
  {
    if a == [] {
      assert a + b == b;
    } else {
      assert (a + b)[1..] == a[1..] + b;
      TotalSplits(a[1..], b);
    }
  }

  /** The ramp is over: every stage it reaches is. */
  ghost predicate Over(legs: seq<Leg>, t: int, acc: int) {
    Past(legs[..FirstZero(legs)], t, acc)
  }

  /** Without negative durations that means the sum of the durations has elapsed. */
  lemma OverAfterTotal(legs: seq<Leg>, t: int, acc: int)
    requires NoNegativeDuration(legs) && t >= acc + TotalNanos(legs)
    ensures Over(legs, t, acc)
  {
    var pre, post := legs[..FirstZero(legs)], legs[FirstZero(legs)..];
    assert legs == pre + post;
    TotalSplits(pre, post);
    TotalNonNegative(post);
    PastTheSum(pre, t, acc);
  }

  /** Once over, a ramp stays at the target of its first stage of no duration, else of its last. */
  lemma PastTheEnd(legs: seq<Leg>, t: int, acc: int, prev: int)
    requires Over(legs, t, acc)
    ensures var k := FirstZero(legs);
            var held := if k < |legs| then legs[k].target else LastTarget(legs, prev);
            Rounded(legs, t, acc, prev) == held && Level(legs, t, acc, prev as real) == held as real
  {
    var pre, post := legs[..FirstZero(legs)], legs[FirstZero(legs)..];
    assert legs == pre + post;
    LastingStagesPass(pre, post, t, acc, prev);
  }

  /**
   The ramp promises to hold its last target once it is over. It does so, on either curve, if
   and only if its first stage of no duration, if there is one, has that very target.
   */
  lemma HoldsLastTargetIff(legs: seq<Leg>, t: int, acc: int, prev: int)
    requires Over(legs, t, acc)
    ensures var k := FirstZero(legs);
            var promised := k < |legs| ==> legs[k].target == LastTarget(legs, prev);
            && (Rounded(legs, t, acc, prev) == LastTarget(legs, prev) <==> promised)
            && (Level(legs, t, acc, prev as real) == LastTarget(legs, prev) as real <==> promised)
  {
    PastTheEnd(legs, t, acc, prev);
  }
}
