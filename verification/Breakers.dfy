/**
 The two watchers of the tick stream: the auto-stop breaker (evalAutoStop in
 internal/coordinator/aggregator) and the mid-run alert (internal/apisrv/alert.go), with
 their effective configurations (internal/plan/plan.go).
 */
module Breakers {
  import opened Collections
  import opened Metrics
  import opened Aggregator
  import LoadShape

  // --------------------------------------------------------------- configuration

  /** The optional fields of a plan: absent or non-positive means "use the default". */
  datatype Config = Config(enabled: Option<bool>, errorRatePct: real, windowSec: int, minRequests: int)

  predicate Enabled(c: Config) {
    c.enabled.None? || c.enabled.value
  }

  function OrDefault(raw: Option<Config>, pct: real): Config {
    if raw.Some? && !Enabled(raw.value) then Config(raw.value.enabled, 0.0, 0, 0)
    else
      Config(Some(true),
             if raw.Some? && raw.value.errorRatePct > 0.0 then raw.value.errorRatePct else pct,
             if raw.Some? && raw.value.windowSec > 0 then raw.value.windowSec else 10,
             if raw.Some? && raw.value.minRequests > 0 then raw.value.minRequests else 20)
  }

  function AutoStopOrDefault(raw: Option<Config>): Config {
    OrDefault(raw, 50.0)
  }

  function AlertOrDefault(raw: Option<Config>): Config {
    OrDefault(raw, 30.0)
  }

  /** What a plan gets: defaults where it says nothing or nothing positive, its own values elsewhere. */
  lemma EffectiveConfig(raw: Config)
    ensures AutoStopOrDefault(None) == Config(Some(true), 50.0, 10, 20)
    ensures AlertOrDefault(None) == Config(Some(true), 30.0, 10, 20)
    ensures forall c :: c in {AutoStopOrDefault(Some(raw)), AlertOrDefault(Some(raw))} ==>
              && (Enabled(c) <==> raw.enabled != Some(false))
              && (Enabled(c) && raw.errorRatePct > 0.0 ==> c.errorRatePct == raw.errorRatePct)
              && (Enabled(c) && raw.windowSec > 0 ==> c.windowSec == raw.windowSec)
              && (Enabled(c) && raw.minRequests > 0 ==> c.minRequests == raw.minRequests)
              && (Enabled(c) ==> c.errorRatePct > 0.0 && c.windowSec > 0 && c.minRequests > 0)
  {
  }

  function WindowOf(c: Config): (w: int)
    ensures w > 0 && (c.windowSec > 0 ==> w == c.windowSec) && (c.windowSec <= 0 ==> w == 10)
  {
    if c.windowSec <= 0 then 10 else c.windowSec
  }

  // ------------------------------------------------------------------- histories

  /** The last w ticks, or all of them. */
  function Tail<T>(h: seq<T>, w: int): seq<T>
    requires w > 0
  {
    if |h| > w then h[|h| - w..] else h
  }

  /** A tail is what a history ends with, and as long as the window allows. */
  lemma TailIs<T>(h: seq<T>, w: int)
    requires w > 0
    ensures |Tail(h, w)| == if |h| < w then |h| else w
    ensures h == h[..|h| - |Tail(h, w)|] + Tail(h, w)
  {
  }

  lemma TailOfTail<T>(h: seq<T>, more: seq<T>, w: int)
    requires w > 0
    ensures Tail(Tail(h, w) + more, w) == Tail(h + more, w)
  {
  }

  predicate Stalled(t: LiveTick) {
    t.activeVus > 0 && t.rps == 0.0
  }

  /** The length of the longest suffix of stalled seconds. */
  function StallSuffix(h: seq<LiveTick>): nat {
    if h == [] || !Stalled(h[|h| - 1]) then 0 else 1 + StallSuffix(h[..|h| - 1])
  }

  lemma {:induction false} StallSuffixIsLongest(h: seq<LiveTick>)
    ensures StallSuffix(h) <= |h|
    ensures forall t :: t in h[|h| - StallSuffix(h)..] ==> Stalled(t)
    ensures StallSuffix(h) < |h| ==> !Stalled(h[|h| - 1 - StallSuffix(h)])
  {
    if h != [] && Stalled(h[|h| - 1]) {
      var front := h[..|h| - 1];
      StallSuffixIsLongest(front);
      assert h[|h| - StallSuffix(h)..] == front[|front| - StallSuffix(front)..] + [h[|h| - 1]];
    }
  }

  /** Each of the last n seconds had VUs at work and not one request completed. */
  ghost predicate Hangs(h: seq<LiveTick>, n: int) {
    n <= |h| && forall i :: 0 <= i < |h| && |h| - n <= i ==> h[i].activeVus > 0 && h[i].rps == 0.0
  }

  /** The streak counts exactly such seconds, so one second with a request completed resets it. */
  lemma {:induction false} StallSuffixIff(h: seq<LiveTick>, n: int)
    ensures n > 0 ==> (StallSuffix(h) >= n <==> Hangs(h, n))
    ensures h != [] && h[|h| - 1].rps != 0.0 ==> StallSuffix(h) == 0
    decreases |h|
  {
    if h != [] {
      var front := h[..|h| - 1];
      StallSuffixIff(front, n - 1);
      if n > 0 && Hangs(h, n) {
        assert h[|h| - 1].activeVus > 0 && h[|h| - 1].rps == 0.0;
        assert Hangs(front, n - 1);
      } else if n > 0 && Stalled(h[|h| - 1]) && Hangs(front, n - 1) {
        assert Hangs(h, n);
      }
    }
  }

  /** A second's requests and errors, recovered from the tick's rates by rounding. */
  datatype SecStat = SecStat(count: int, errors: int)

  function StatOf(t: LiveTick): SecStat {
    SecStat(LoadShape.Trunc(t.rps + 0.5), LoadShape.Trunc(t.errorRate * t.rps + 0.5))
  }

  function Stats(h: seq<LiveTick>): seq<SecStat> {
    seq(|h|, i requires 0 <= i < |h| => StatOf(h[i]))
  }

  function SumStats(s: seq<SecStat>): SecStat {
    if s == [] then SecStat(0, 0)
    else
      var front, last := SumStats(s[..|s| - 1]), s[|s| - 1];
      SecStat(front.count + last.count, front.errors + last.errors)
  }

  /** A tick that reports whole numbers of requests and errors, no more errors than requests. */
  ghost predicate Faithful(t: LiveTick) {
    exists count: int, errors: int {:trigger IsTickFor(t, count, errors)} :: IsTickFor(t, count, errors)
  }

  ghost predicate IsTickFor(t: LiveTick, count: int, errors: int) {
    0 <= errors <= count && t.rps == count as real && t.errorRate == Ratio(errors, count)
  }

  /** The rate-and-round encoding loses nothing. */
  lemma RoundingIsExact(t: LiveTick, count: int, errors: int)
    requires IsTickFor(t, count, errors)
    ensures StatOf(t) == SecStat(count, errors)
    ensures t.rps * t.errorRate == errors as real
  {
    if count > 0 {
      assert errors as real / count as real * count as real == errors as real;
    }
    assert (count as real + 0.5).Floor == count && (errors as real + 0.5).Floor == errors;
  }

  lemma {:induction false} SumOfBounded(m: Buckets)
    requires forall k :: k in m ==> Bounded(m[k])
    ensures Bounded(BucketSum(m))
    decreases |m|
  {
    if m != map[] {
      var k :| k in m;
      BucketSumRemove(m, k);
      assert Bounded(m[k]);
      SumOfBounded(m - {k});
    }
  }

  /** Ticks of seconds whose buckets hold no more errors than results are faithful. */
  lemma EmittedTicksAreFaithful(e: Emission)
    requires forall k :: k in e.buckets ==> Bounded(e.buckets[k])
    ensures Faithful(TickOf(e))
    ensures StatOf(TickOf(e)) == SecStat(BucketSum(Requests(e.buckets)).count, BucketSum(Requests(e.buckets)).errors)
  {
    var total := BucketSum(Requests(e.buckets));
    SumOfBounded(Requests(e.buckets));
    assert IsTickFor(TickOf(e), total.count, total.errors);
    RoundingIsExact(TickOf(e), total.count, total.errors);
  }

  // -------------------------------------------------------------- the breaker

  /** What arms the breaker: its configuration, whether a callback is set, the stall limit. */
  datatype Settings = Settings(cfg: Config, armed: bool, stallSec: int)

  datatype Trip = Stall(activeVus: int, seconds: nat) | ErrorRate(rate: real)

  datatype Breaker = Breaker(autoWin: seq<SecStat>, stallStreak: nat, fired: bool)

  const FRESH := Breaker([], 0, false)

  /** The stall loop over one batch of ticks; it stops at the tick that reaches the limit. */
  function StallScan(streak: nat, ticks: seq<LiveTick>, limit: int): (nat, Option<Trip>)
    decreases |ticks|
  {
    if ticks == [] then (streak, None)
    else
      var s := if Stalled(ticks[0]) then streak + 1 else 0;
      if s >= limit then (s, Some(Stall(ticks[0].activeVus, s))) else StallScan(s, ticks[1..], limit)
  }

  function RateOf(total: SecStat): real
    requires total.count != 0
  {
    total.errors as real / total.count as real * 100.0
  }

  predicate OverLimit(cfg: Config, total: SecStat) {
    !(total.count < cfg.minRequests || total.count == 0) && RateOf(total) > cfg.errorRatePct
  }

  /** Being over a percentage, with and without the division. */
  lemma OverMeansRate(e: real, n: real, pct: real)
    requires n > 0.0
    ensures 100.0 * e - pct * n > 0.0 <==> e / n * 100.0 > pct
    ensures e / n * n == e
  {
    var r := e / n;
    assert r * n == e;
    var d := 100.0 * r - pct;
    assert d * n == 100.0 * e - pct * n by {
      assert 100.0 * r * n == 100.0 * (r * n);
    }
    if d > 0.0 {
      LoadShape.TimesPositive(d, n);
    } else {
      LoadShape.TimesNonNegative(-d, n);
      assert -d * n == -(d * n);
    }
  }

  /** Over the limit: enough requests, and more errors among them than the percentage allows. */
  lemma OverLimitIff(c: Config, total: SecStat)
    requires total.count >= 0
    ensures OverLimit(c, total) <==>
              && total.count > 0 && total.count >= c.minRequests
              && 100.0 * total.errors as real > c.errorRatePct * total.count as real
  {
    if total.count > 0 {
      OverMeansRate(total.errors as real, total.count as real, c.errorRatePct);
    }
  }

  function Eval(s: Settings, b: Breaker, ticks: seq<LiveTick>): (Breaker, Option<Trip>) {
    if !Enabled(s.cfg) || !s.armed || b.fired || ticks == [] then (b, None)
    else
      var (streak, stall) := if s.stallSec > 0 then StallScan(b.stallStreak, ticks, s.stallSec) else (b.stallStreak, None);
      if stall.Some? then (Breaker(b.autoWin, streak, true), stall)
      else
        var win := Tail(b.autoWin + Stats(ticks), WindowOf(s.cfg));
        var total := SumStats(win);
        if OverLimit(s.cfg, total) then (Breaker(win, streak, true), Some(ErrorRate(RateOf(total))))
        else (Breaker(win, streak, false), None)
  }

  class AutoStop {
    var settings: Settings
    var autoWin: seq<SecStat>
    var stallStreak: nat
    var autoFired: bool

    ghost function Abs(): Breaker
      reads this
    {
      Breaker(autoWin, stallStreak, autoFired)
    }

    constructor (settings: Settings)
      ensures Abs() == FRESH && this.settings == settings
    {
      this.settings := settings;
      autoWin, stallStreak, autoFired := [], 0, false;
    }

    method EvalAutoStop(ticks: seq<LiveTick>) returns (trip: Option<Trip>)
      modifies this`autoWin, this`stallStreak, this`autoFired
      ensures (Abs(), trip) == Eval(settings, old(Abs()), ticks)
    {
      if !Enabled(settings.cfg) || !settings.armed || autoFired || |ticks| == 0 {
        return None;
      }
      if settings.stallSec > 0 {
        trip := ScanStalls(ticks);
        if trip.Some? {
          autoFired := true;
          return;
        }
      }
      var win := if settings.cfg.windowSec <= 0 then 10 else settings.cfg.windowSec;
      var total := Refill(ticks, win);
      trip := Judge(total);
      autoFired := trip.Some?;
    }

    method ScanStalls(ticks: seq<LiveTick>) returns (trip: Option<Trip>)
      modifies this`stallStreak
      ensures (stallStreak, trip) == StallScan(old(stallStreak), ticks, settings.stallSec)
    {
      var i := 0;
      while i < |ticks|
        invariant 0 <= i <= |ticks|
        invariant StallScan(old(stallStreak), ticks, settings.stallSec)
               == StallScan(stallStreak, ticks[i..], settings.stallSec)
      {
        var tk := ticks[i];
        assert ticks[i..][1..] == ticks[i + 1..];
        if tk.activeVus > 0 && tk.rps == 0.0 {
          stallStreak := stallStreak + 1;
        } else {
          stallStreak := 0;
        }
        if stallStreak >= settings.stallSec {
          return Some(Stall(tk.activeVus, stallStreak));
        }
        i := i + 1;
      }
      return None;
    }

    method Judge(total: SecStat) returns (trip: Option<Trip>)
      ensures trip == if OverLimit(settings.cfg, total) then Some(ErrorRate(RateOf(total))) else None
    {
      if total.count < settings.cfg.minRequests || total.count == 0 {
        return None;
      }
      var rate := total.errors as real / total.count as real * 100.0;
      if rate <= settings.cfg.errorRatePct {
        return None;
      }
      return Some(ErrorRate(rate));
    }

    /** Appends the batch to the trailing window, trims it and adds it up. */
    method Refill(ticks: seq<LiveTick>, win: int) returns (total: SecStat)
      requires win > 0
      modifies this`autoWin
      ensures autoWin == Tail(old(autoWin) + Stats(ticks), win) && total == SumStats(autoWin)
    {
      var i := 0;
      while i < |ticks|
        invariant 0 <= i <= |ticks|
        invariant autoWin == old(autoWin) + Stats(ticks)[..i]
      {
        assert Stats(ticks)[i] == StatOf(ticks[i]);
        autoWin := autoWin + [StatOf(ticks[i])];
        i := i + 1;
      }
      assert Stats(ticks)[..i] == Stats(ticks);
      if |autoWin| > win {
        autoWin := autoWin[|autoWin| - win..];
      }
      total := AddUp(autoWin);
    }
  }

  method AddUp(window: seq<SecStat>) returns (total: SecStat)
    ensures total == SumStats(window)
  {
    total := SecStat(0, 0);
    var i := 0;
    while i < |window|
      invariant 0 <= i <= |window| && total == SumStats(window[..i])
    {
      assert window[..i + 1][..i] == window[..i];
      total := SecStat(total.count + window[i].count, total.errors + window[i].errors);
      i := i + 1;
    }
    assert window[..i] == window;
  }

  // --------------------------------------------- recomputation from the history

  /** Some second of the batch completes a stretch of the limit's length with VUs at work and nothing completed. */
  ghost predicate StallTrips(s: Settings, h: seq<LiveTick>, ticks: seq<LiveTick>) {
    s.stallSec > 0 && exists j :: 0 < j <= |ticks| && Hangs(h + ticks[..j], s.stallSec)
  }

  lemma StallTripsIff(s: Settings, h: seq<LiveTick>, ticks: seq<LiveTick>)
    requires s.stallSec > 0
    ensures StallTrips(s, h, ticks) <==> ReachesLimit(h, ticks, s.stallSec)
  {
    forall j | 0 < j <= |ticks|
      ensures Hangs(h + ticks[..j], s.stallSec) <==> StallSuffix(h + ticks[..j]) >= s.stallSec
    {
      StallSuffixIff(h + ticks[..j], s.stallSec);
    }
  }

  /** The trailing window of the whole history is over the limit. */
  ghost predicate RateTrips(s: Settings, h: seq<LiveTick>) {
    OverLimit(s.cfg, SumStats(Stats(Tail(h, WindowOf(s.cfg)))))
  }

  ghost predicate Trips(s: Settings, h: seq<LiveTick>, ticks: seq<LiveTick>) {
    && Enabled(s.cfg) && s.armed && ticks != []
    && (StallTrips(s, h, ticks) || RateTrips(s, h + ticks))
  }

  /** The incremental state is what the history says it should be. */
  ghost predicate Tracks(s: Settings, b: Breaker, h: seq<LiveTick>) {
    && b.autoWin == Stats(Tail(h, WindowOf(s.cfg)))
    && (s.stallSec > 0 ==> b.stallStreak == StallSuffix(h))
  }

  /** Some prefix of the batch ends a stalled stretch of at least the limit. */
  ghost predicate ReachesLimit(h: seq<LiveTick>, ticks: seq<LiveTick>, limit: int) {
    exists j :: 0 < j <= |ticks| && StallSuffix(h + ticks[..j]) >= limit
  }

  lemma ReachesLimitStep(h: seq<LiveTick>, ticks: seq<LiveTick>, limit: int)
    requires ticks != []
    ensures var h1 := h + [ticks[0]];
            ReachesLimit(h, ticks, limit) <==> StallSuffix(h1) >= limit || ReachesLimit(h1, ticks[1..], limit)
  {
    var h1, rest := h + [ticks[0]], ticks[1..];
    assert ticks[..1] == [ticks[0]];
    assert forall j :: 0 < j <= |rest| ==> h + ticks[..j + 1] == h1 + rest[..j];
    if ReachesLimit(h, ticks, limit) {
      var j :| 0 < j <= |ticks| && StallSuffix(h + ticks[..j]) >= limit;
      if j > 1 {
        assert h + ticks[..j - 1 + 1] == h1 + rest[..j - 1];
      }
    }
    if ReachesLimit(h1, rest, limit) {
      var j :| 0 < j <= |rest| && StallSuffix(h1 + rest[..j]) >= limit;
      assert StallSuffix(h + ticks[..j + 1]) >= limit;
    }
    if StallSuffix(h1) >= limit {
      assert StallSuffix(h + ticks[..1]) >= limit;
    }
  }

  lemma {:induction false} StallScanTracks(h: seq<LiveTick>, ticks: seq<LiveTick>, limit: int)
    requires limit > 0
    ensures var (streak, trip) := StallScan(StallSuffix(h), ticks, limit);
            && (trip.Some? <==> ReachesLimit(h, ticks, limit))
            && (trip.Some? ==> trip.value.Stall?)
            && (trip.None? ==> streak == StallSuffix(h + ticks))
    decreases |ticks|
  {
    if ticks == [] {
      assert h + ticks == h;
    } else {
      var h1 := h + [ticks[0]];
      assert h1[..|h1| - 1] == h;
      ReachesLimitStep(h, ticks, limit);
      StallScanTracks(h1, ticks[1..], limit);
      assert h1 + ticks[1..] == h + ticks;
    }
  }

  lemma WindowTracks(h: seq<LiveTick>, ticks: seq<LiveTick>, w: int)
    requires w > 0
    ensures Tail(Stats(Tail(h, w)) + Stats(ticks), w) == Stats(Tail(h + ticks, w))
  {
    assert Stats(Tail(h, w)) == Tail(Stats(h), w);
    TailOfTail(Stats(h), Stats(ticks), w);
    assert Stats(h) + Stats(ticks) == Stats(h + ticks);
  }

  /** One evaluation: it trips exactly when the history says so, and keeps tracking otherwise. */
  lemma EvalTracks(s: Settings, b: Breaker, h: seq<LiveTick>, ticks: seq<LiveTick>)
    requires Enabled(s.cfg) && s.armed && !b.fired && Tracks(s, b, h)
    ensures var (b', trip) := Eval(s, b, ticks);
            && (trip.Some? <==> Trips(s, h, ticks))
            && (trip.Some? && trip.value.Stall? <==> ticks != [] && StallTrips(s, h, ticks))
            && (trip.Some? && trip.value.ErrorRate? ==> RateTrips(s, h + ticks))
            && b'.fired == trip.Some?
            && (trip.None? ==> Tracks(s, b', h + ticks))
  {
    if ticks == [] {
      assert h + ticks == h;
    } else {
      if s.stallSec > 0 {
        StallScanTracks(h, ticks, s.stallSec);
        StallTripsIff(s, h, ticks);
        assert b.stallStreak == StallSuffix(h);
        var (streak, stall) := StallScan(b.stallStreak, ticks, s.stallSec);
        assert stall.None? ==> streak == StallSuffix(h + ticks) && Eval(s, b, ticks).0.stallStreak == streak;
      }
      WindowTracks(h, ticks, WindowOf(s.cfg));
    }
  }

  // ------------------------------------------------------------ over a whole run

  /** The breaker after a sequence of finalizations. */
  function AfterBatches(s: Settings, batches: seq<seq<LiveTick>>): Breaker {
    if batches == [] then FRESH
    else Eval(s, AfterBatches(s, batches[..|batches| - 1]), batches[|batches| - 1]).0
  }

  /** What the k-th finalization reports to the callback. */
  function TripAt(s: Settings, batches: seq<seq<LiveTick>>, k: nat): Option<Trip>
    requires k < |batches|
  {
    Eval(s, AfterBatches(s, batches[..k]), batches[k]).1
  }

  ghost predicate HistoryTripsAt(s: Settings, batches: seq<seq<LiveTick>>, k: nat)
    requires k < |batches|
  {
    Trips(s, Flat(batches[..k]), batches[k])
  }

  ghost predicate TrippedBefore(s: Settings, batches: seq<seq<LiveTick>>, k: nat)
    requires k <= |batches|
  {
    exists j :: 0 <= j < k && HistoryTripsAt(s, batches, j)
  }

  /** The breaker has fired iff some batch so far tripped, and tracks the ticks until then. */
  ghost predicate Followed(s: Settings, batches: seq<seq<LiveTick>>, k: nat)
    requires k <= |batches|
  {
    var b := AfterBatches(s, batches[..k]);
    (b.fired <==> TrippedBefore(s, batches, k)) && (!b.fired ==> Tracks(s, b, Flat(batches[..k])))
  }

  lemma TrippedBeforeNext(s: Settings, batches: seq<seq<LiveTick>>, k: nat)
    requires k < |batches|
    ensures TrippedBefore(s, batches, k + 1) <==> TrippedBefore(s, batches, k) || HistoryTripsAt(s, batches, k)
  {
    if TrippedBefore(s, batches, k) {
      var j :| 0 <= j < k && HistoryTripsAt(s, batches, j);
      assert 0 <= j < k + 1;
    }
  }

  lemma OneBatchMore(s: Settings, batches: seq<seq<LiveTick>>, k: nat)
    requires k < |batches| && Enabled(s.cfg) && s.armed && Followed(s, batches, k)
    ensures Followed(s, batches, k + 1)
  {
    var b, h, ticks := AfterBatches(s, batches[..k]), Flat(batches[..k]), batches[k];
    assert batches[..k + 1][..k] == batches[..k];
    FlatNext(batches, k);
    assert AfterBatches(s, batches[..k + 1]) == Eval(s, b, ticks).0;
    TrippedBeforeNext(s, batches, k);
    if !b.fired {
      EvalTracks(s, b, h, ticks);
    }
  }

  lemma {:induction false} BreakerTracksHistory(s: Settings, batches: seq<seq<LiveTick>>, k: nat)
    requires k <= |batches| && Enabled(s.cfg) && s.armed
    ensures Followed(s, batches, k)
  {
    if k > 0 {
      BreakerTracksHistory(s, batches, k - 1);
      OneBatchMore(s, batches, k - 1);
    } else {
      assert batches[..0] == [];
    }
  }

  lemma {:induction false} DisarmedStaysFresh(s: Settings, batches: seq<seq<LiveTick>>)
    requires !(Enabled(s.cfg) && s.armed)
    ensures AfterBatches(s, batches) == FRESH
  {
    if batches != [] {
      DisarmedStaysFresh(s, batches[..|batches| - 1]);
    }
  }

  /**
   The callback fires at most once, and exactly at the first batch at which the condition
   recomputed from the whole history holds; never if the breaker is switched off or has no
   callback. It names the stall exactly if there is one, else the error rate.
   */
  lemma FiresAtFirstTrip(s: Settings, batches: seq<seq<LiveTick>>, k: nat)
    requires k < |batches|
    ensures TripAt(s, batches, k).Some? <==>
              HistoryTripsAt(s, batches, k) && forall j :: 0 <= j < k ==> !HistoryTripsAt(s, batches, j)
    ensures TripAt(s, batches, k).Some? ==>
              (TripAt(s, batches, k).value.Stall? <==> StallTrips(s, Flat(batches[..k]), batches[k]))
    ensures TripAt(s, batches, k).Some? && TripAt(s, batches, k).value.ErrorRate? ==>
              RateTrips(s, Flat(batches[..k + 1]))
  {
    if Enabled(s.cfg) && s.armed {
      BreakerTracksHistory(s, batches, k);
      var b := AfterBatches(s, batches[..k]);
      FlatNext(batches, k);
      if !b.fired {
        EvalTracks(s, b, Flat(batches[..k]), batches[k]);
      }
    } else {
      DisarmedStaysFresh(s, batches[..k]);
    }
  }
}
