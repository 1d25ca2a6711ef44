/** The mid-run alert and its promise to warn before the breaker trips. */
module Alert {
  import opened Collections
  import opened Aggregator
  import opened Breakers
  import LoadShape

  datatype TickSample = TickSample(reqs: real, errs: real)

  function SampleOf(t: LiveTick): TickSample {
    TickSample(t.rps, t.rps * t.errorRate)
  }

  function Samples(h: seq<LiveTick>): seq<TickSample> {
    seq(|h|, i requires 0 <= i < |h| => SampleOf(h[i]))
  }

  function SumSamples(s: seq<TickSample>): TickSample {
    if s == [] then TickSample(0.0, 0.0)
    else
      var front, last := SumSamples(s[..|s| - 1]), s[|s| - 1];
      TickSample(front.reqs + last.reqs, front.errs + last.errs)
  }

  predicate Crosses(c: Config, total: TickSample) {
    && !(total.reqs < c.minRequests as real || total.reqs == 0.0)
    && total.errs / total.reqs >= c.errorRatePct / 100.0
    && c.errorRatePct / 100.0 > 0.0
  }

  datatype Watcher = Watcher(buf: seq<TickSample>, fired: bool)

  function Observe(c: Config, w: Watcher, t: LiveTick): (Watcher, bool) {
    if !Enabled(c) || w.fired then (w, false)
    else
      var buf := Tail(w.buf + [SampleOf(t)], WindowOf(c));
      var crossed := Crosses(c, SumSamples(buf));
      (Watcher(buf, crossed), crossed)
  }

  class AlertEvaluator {
    const cfg: Config
    var fired: bool
    var buf: seq<TickSample>

    ghost function Abs(): Watcher
      reads this
    {
      Watcher(buf, fired)
    }

    constructor (cfg: Config)
      ensures Abs() == Watcher([], false) && this.cfg == cfg
    {
      this.cfg := cfg;
      fired, buf := false, [];
    }

    method OnTick(t: LiveTick) returns (rate: real, fires: bool)
      modifies this
      ensures (Abs(), fires) == Observe(cfg, old(Abs()), t)
      ensures fires ==> SumSamples(buf).reqs != 0.0 && rate == SumSamples(buf).errs / SumSamples(buf).reqs
    {
      if !Enabled(cfg) || fired {
        return 0.0, false;
      }
      Push(t);
      var sum := AddUpSamples(buf);
      rate, fires := Judge(sum);
      fired := fires;
    }

    method Push(t: LiveTick)
      modifies this`buf
      ensures buf == Tail(old(buf) + [SampleOf(t)], WindowOf(cfg))
    {
      var window := if cfg.windowSec <= 0 then 10 else cfg.windowSec;
      buf := buf + [SampleOf(t)];
      if |buf| > window {
        buf := buf[|buf| - window..];
      }
    }

    method Judge(sum: TickSample) returns (rate: real, crosses: bool)
      ensures crosses == Crosses(cfg, sum) && (crosses ==> rate == sum.errs / sum.reqs)
    {
      if sum.reqs < cfg.minRequests as real || sum.reqs == 0.0 {
        return 0.0, false;
      }
      rate := sum.errs / sum.reqs;
      var thresh := cfg.errorRatePct / 100.0;
      if rate >= thresh && thresh > 0.0 {
        return rate, true;
      }
      return 0.0, false;
    }
  }

  method AddUpSamples(buf: seq<TickSample>) returns (sum: TickSample)
    ensures sum == SumSamples(buf)
  {
    sum := TickSample(0.0, 0.0);
    var i := 0;
    while i < |buf|
      invariant 0 <= i <= |buf| && sum == SumSamples(buf[..i])
    {
      assert buf[..i + 1][..i] == buf[..i];
      sum := TickSample(sum.reqs + buf[i].reqs, sum.errs + buf[i].errs);
      i := i + 1;
    }
    assert buf[..i] == buf;
  }

  // --------------------------------------------- recomputation from the history

  /** The trailing window at the end of this history crosses the alert threshold. */
  ghost predicate Warrants(c: Config, h: seq<LiveTick>) {
    Crosses(c, SumSamples(Samples(Tail(h, WindowOf(c)))))
  }

  function AfterTicks(c: Config, h: seq<LiveTick>): Watcher {
    if h == [] then Watcher([], false)
    else Observe(c, AfterTicks(c, h[..|h| - 1]), h[|h| - 1]).0
  }

  lemma BufferTracks(h: seq<LiveTick>, w: int)
    requires h != [] && w > 0
    ensures var front, last := h[..|h| - 1], h[|h| - 1];
            Tail(Samples(Tail(front, w)) + [SampleOf(last)], w) == Samples(Tail(h, w))
  {
    var front, last := h[..|h| - 1], h[|h| - 1];
    assert Samples(Tail(front, w)) == Tail(Samples(front), w);
    TailOfTail(Samples(front), [SampleOf(last)], w);
    assert Samples(front) + [SampleOf(last)] == Samples(h);
    assert Tail(Samples(h), w) == Samples(Tail(h, w));
  }

  ghost predicate Warranted(c: Config, h: seq<LiveTick>) {
    exists j :: 0 < j <= |h| && Warrants(c, h[..j])
  }

  lemma WarrantedStep(c: Config, h: seq<LiveTick>)
    requires h != []
    ensures Warranted(c, h) <==> Warranted(c, h[..|h| - 1]) || Warrants(c, h)
  {
    var front := h[..|h| - 1];
    assert h[..|h|] == h;
    assert forall j :: 0 < j <= |front| ==> front[..j] == h[..j];
    if Warranted(c, front) {
      var j :| 0 < j <= |front| && Warrants(c, front[..j]);
      assert Warrants(c, h[..j]);
    }
    if Warranted(c, h) {
      var j :| 0 < j <= |h| && Warrants(c, h[..j]);
      if j < |h| {
        assert Warrants(c, front[..j]);
      }
    }
  }

  /** The alert has fired exactly if it is switched on and some prefix of the stream warranted it. */
  lemma {:induction false} AlertTracksHistory(c: Config, h: seq<LiveTick>)
    ensures AfterTicks(c, h).fired <==> Enabled(c) && Warranted(c, h)
    ensures Enabled(c) && !AfterTicks(c, h).fired ==> AfterTicks(c, h).buf == Samples(Tail(h, WindowOf(c)))
  {
    if h != [] {
      AlertTracksHistory(c, h[..|h| - 1]);
      WarrantedStep(c, h);
      BufferTracks(h, WindowOf(c));
    }
  }

  /** It tells its caller so once, at the first tick that warrants it. */
  lemma AlertFiresOnce(c: Config, h: seq<LiveTick>, k: nat)
    requires k < |h|
    ensures Observe(c, AfterTicks(c, h[..k]), h[k]).1 <==>
              Enabled(c) && Warrants(c, h[..k + 1]) && forall j :: 0 < j <= k ==> !Warrants(c, h[..j])
  {
    var upTo := h[..k + 1];
    assert upTo[..k] == h[..k] && upTo[k] == h[k];
    AlertTracksHistory(c, h[..k]);
    AlertTracksHistory(c, upTo);
    WarrantedStep(c, upTo);
    assert forall j :: 0 < j <= k ==> h[..k][..j] == h[..j];
  }

  /** Crossing, multiplied out: enough requests, a positive threshold, and errors up to it or more. */
  lemma CrossesIff(c: Config, total: TickSample)
    requires total.reqs >= 0.0
    ensures Crosses(c, total) <==>
              && total.reqs > 0.0 && total.reqs >= c.minRequests as real && c.errorRatePct > 0.0
              && 100.0 * total.errs >= c.errorRatePct * total.reqs
  {
    if total.reqs > 0.0 {
      var r, pct := total.errs / total.reqs, c.errorRatePct;
      OverMeansRate(-total.errs, total.reqs, -pct);
      assert -total.errs / total.reqs == -r;
    }
  }

  // --------------------------------------------------------- alert and breaker

  ghost predicate AllFaithful(h: seq<LiveTick>) {
    forall i :: 0 <= i < |h| ==> Faithful(h[i])
  }

  lemma SumsAppend(h: seq<LiveTick>, t: LiveTick)
    ensures SumStats(Stats(h + [t]))
         == var sum := SumStats(Stats(h)); SecStat(sum.count + StatOf(t).count, sum.errors + StatOf(t).errors)
    ensures SumSamples(Samples(h + [t]))
         == var sum := SumSamples(Samples(h)); TickSample(sum.reqs + SampleOf(t).reqs, sum.errs + SampleOf(t).errs)
  {
    assert Stats(h + [t]) == Stats(h) + [StatOf(t)];
    assert Samples(h + [t]) == Samples(h) + [SampleOf(t)];
  }

  lemma SameTick(t: LiveTick)
    requires Faithful(t)
    ensures SampleOf(t).reqs == StatOf(t).count as real && SampleOf(t).errs == StatOf(t).errors as real
    ensures 0 <= StatOf(t).errors <= StatOf(t).count
  {
    var count, errors :| IsTickFor(t, count, errors);
    RoundingIsExact(t, count, errors);
  }

  lemma {:induction false} SameSums(h: seq<LiveTick>)
    requires AllFaithful(h)
    ensures var a, b := SumSamples(Samples(h)), SumStats(Stats(h));
            a.reqs == b.count as real && a.errs == b.errors as real && 0 <= b.errors <= b.count
  {
    if h != [] {
      var front, last := h[..|h| - 1], h[|h| - 1];
      assert h == front + [last];
      SameSums(front);
      SumsAppend(front, last);
      SameTick(last);
    }
  }

  /** What makes the alert at least as sensitive as the breaker. */
  predicate Sensitive(alert: Config, breaker: Config) {
    && alert.minRequests <= (if breaker.minRequests > 1 then breaker.minRequests else 1)
    && 0.0 < alert.errorRatePct <= breaker.errorRatePct
  }

  lemma TotalsWarrant(alert: Config, breaker: Config, total: SecStat)
    requires Sensitive(alert, breaker) && 0 <= total.errors <= total.count && OverLimit(breaker, total)
    ensures Crosses(alert, TickSample(total.count as real, total.errors as real))
  {
    var rate := total.errors as real / total.count as real;
    assert rate * 100.0 > breaker.errorRatePct;
  }

  lemma RateTripWarrants(alert: Config, s: Settings, h: seq<LiveTick>)
    requires WindowOf(alert) == WindowOf(s.cfg) && Sensitive(alert, s.cfg) && AllFaithful(h) && RateTrips(s, h)
    ensures Warrants(alert, h)
  {
    var tail := Tail(h, WindowOf(alert));
    assert AllFaithful(tail);
    SameSums(tail);
    TotalsWarrant(alert, s.cfg, SumStats(Stats(tail)));
  }

  /**
   The alert fires no later than the error-rate breaker: on the same tick stream, with equal
   windows and the alert at least as sensitive, an error-rate trip at batch k finds the alert
   already fired on the ticks up to the end of that batch.
   */
  lemma WarnsNoLaterThanTrip(alert: Config, s: Settings, batches: seq<seq<LiveTick>>, k: nat)
    requires k < |batches| && Enabled(alert) && Enabled(s.cfg) && s.armed
    requires WindowOf(alert) == WindowOf(s.cfg) && Sensitive(alert, s.cfg)
    requires AllFaithful(Flat(batches[..k + 1]))
    requires TripAt(s, batches, k).Some? && TripAt(s, batches, k).value.ErrorRate?
    ensures AfterTicks(alert, Flat(batches[..k + 1])).fired
  {
    var h := Flat(batches[..k + 1]);
    FiresAtFirstTrip(s, batches, k);
    RateTripWarrants(alert, s, h);
    AlertTracksHistory(alert, h);
    assert h[..|h|] == h && h != [];
  }

  /** A plan that sets neither watcher gets an alert that is sensitive enough. */
  lemma DefaultsWarnFirst()
    ensures var a, b := AlertOrDefault(None), AutoStopOrDefault(None);
            Enabled(a) && Enabled(b) && WindowOf(a) == WindowOf(b) && Sensitive(a, b)
  {
  }

  // ------------------------------------------------- the condition is exact

  ghost predicate AlwaysWarns(alert: Config, s: Settings) {
    forall h :: AllFaithful(h) && RateTrips(s, h) ==> AfterTicks(alert, h).fired
  }

  function OneTick(count: int, errors: int): LiveTick {
    LiveTick(1, count as real, Ratio(errors, count), 1, multiset{}, map[], [])
  }

  /** On a single second, both watchers see just that second's totals. */
  lemma OneSecond(alert: Config, s: Settings, count: int, errors: int)
    requires 0 <= errors <= count && Enabled(alert)
    ensures var h := [OneTick(count, errors)];
            && AllFaithful(h)
            && (RateTrips(s, h) <==> OverLimit(s.cfg, SecStat(count, errors)))
            && (AfterTicks(alert, h).fired <==> Crosses(alert, TickSample(count as real, errors as real)))
  {
    var t := OneTick(count, errors);
    var h := [t];
    assert IsTickFor(t, count, errors);
    RoundingIsExact(t, count, errors);
    assert h[..0] == [] && Stats(h)[..0] == [] && Samples(h)[..0] == [];
    assert SumStats(Stats(h)) == SecStat(count, errors);
    assert SumSamples(Samples(h)) == TickSample(count as real, errors as real);
    AlertTracksHistory(alert, h);
    assert h[..1] == h;
  }

  /** Between two distinct percentages below 100 lies the error rate of some second. */
  lemma RateBetween(low: real, high: real, least: int) returns (count: int, errors: int)
    requires 0.0 <= low < 100.0 && low < high
    ensures count >= least && count >= 1 && 0 <= errors <= count
    ensures low < errors as real / count as real * 100.0 < high
  {
    var n := (100.0 / (high - low)).Floor + 1;
    count := if n >= least && n >= 1 then n else if least >= 1 then least else 1;
    var x := low * count as real / 100.0;
    errors := x.Floor + 1;
    GapSmall(low, high, count);
    RateInside(low, high, count, errors);
  }

  lemma QuotientOfItself(c: real)
    requires c > 0.0
    ensures c / c == 1.0
  {
  }

  lemma QuotientPositive(d: real, c: real)
    requires d > 0.0 && c > 0.0
    ensures d / c > 0.0
  {
  }

  lemma QuotientNonNegative(d: real, c: real)
    requires d >= 0.0 && c > 0.0
    ensures d / c >= 0.0
  {
  }

  lemma GapSmall(low: real, high: real, count: int)
    requires low < high && count >= 1 && count >= (100.0 / (high - low)).Floor + 1
    ensures 100.0 / count as real < high - low
  {
    var gap, c := high - low, count as real;
    var q := 100.0 / gap;
    assert q * gap == 100.0 && c > q;
    assert c * gap - 100.0 == (c - q) * gap;
    LoadShape.TimesPositive(c - q, gap);
    QuotientPositive(c * gap - 100.0, c);
    assert gap - 100.0 / c == (c * gap - 100.0) / c;
  }

  lemma RateInside(low: real, high: real, count: int, errors: int)
    requires 0.0 <= low < 100.0 && count >= 1 && 100.0 / count as real < high - low
    requires errors == (low * count as real / 100.0).Floor + 1
    ensures 0 <= errors <= count && low < errors as real / count as real * 100.0 < high
  {
    var c, e := count as real, errors as real;
    var x := low * c / 100.0;
    assert x * 100.0 == low * c && x < e <= x + 1.0;
    assert 0.0 <= x < c by {
      LoadShape.TimesPositive(100.0 - low, c);
      LoadShape.TimesNonNegative(low, c);
      assert (100.0 - low) * c == 100.0 * c - low * c;
    }
    var y := e * 100.0 - low * c;
    assert 0.0 < y <= 100.0;
    QuotientPositive(y, c);
    QuotientNonNegative(100.0 - y, c);
    assert e / c * 100.0 - low == y / c;
    assert 100.0 / c - y / c == (100.0 - y) / c;
  }

  /** No stream of seconds is over a limit of 100 percent or more. */
  lemma HundredNeverTrips(s: Settings, h: seq<LiveTick>)
    requires s.cfg.errorRatePct >= 100.0 && AllFaithful(h)
    ensures !RateTrips(s, h)
  {
    var tail := Tail(h, WindowOf(s.cfg));
    assert AllFaithful(tail);
    SameSums(tail);
    var total := SumStats(Stats(tail));
    if total.count > 0 {
      ProperFraction(total.errors as real, total.count as real);
    }
  }

  lemma ProperFraction(e: real, c: real)
    requires e <= c && c > 0.0
    ensures e / c * 100.0 <= 100.0
  {
    QuotientNonNegative(c - e, c);
    QuotientOfItself(c);
    assert (c - e) / c == c / c - e / c;
  }

  /** An alert that is not sensitive enough misses some second that trips the breaker. */
  lemma MissedTrip(alert: Config, s: Settings) returns (count: int, errors: int)
    requires s.cfg.errorRatePct < 100.0 && !Sensitive(alert, s.cfg)
    ensures 0 <= errors <= count && OverLimit(s.cfg, SecStat(count, errors))
    ensures !Crosses(alert, TickSample(count as real, errors as real))
  {
    var least := if s.cfg.minRequests > 1 then s.cfg.minRequests else 1;
    if alert.minRequests > least || alert.errorRatePct <= 0.0 {
      count, errors := least, least;
      QuotientOfItself(least as real);
    } else if s.cfg.errorRatePct < 0.0 {
      count, errors := least, 0;
    } else {
      count, errors := RateBetween(s.cfg.errorRatePct, alert.errorRatePct, least);
    }
  }

  /**
   With equal windows the condition is exact: the alert always warns by the time the breaker
   trips if and only if it is at least as sensitive, or the breaker cannot trip at all.
   */
  lemma WarnsIffSensitive(alert: Config, s: Settings)
    requires Enabled(alert) && WindowOf(alert) == WindowOf(s.cfg)
    ensures AlwaysWarns(alert, s) <==> Sensitive(alert, s.cfg) || s.cfg.errorRatePct >= 100.0
  {
    if Sensitive(alert, s.cfg) {
      forall h | AllFaithful(h) && RateTrips(s, h) ensures AfterTicks(alert, h).fired {
        RateTripWarrants(alert, s, h);
        AlertTracksHistory(alert, h);
        assert h[..|h|] == h && h != [];
      }
    } else if s.cfg.errorRatePct >= 100.0 {
      forall h | AllFaithful(h) ensures !RateTrips(s, h) {
        HundredNeverTrips(s, h);
      }
    } else {
      var count, errors := MissedTrip(alert, s);
      OneSecond(alert, s, count, errors);
    }
  }

  // ------------------------------------------------------------- unequal windows

  function Idle(n: nat): seq<LiveTick> {
    seq(n, _ => OneTick(0, 0))
  }

  lemma OneTickCounts(count: int, errors: int)
    requires 0 <= errors <= count
    ensures Faithful(OneTick(count, errors)) && StatOf(OneTick(count, errors)) == SecStat(count, errors)
    ensures SampleOf(OneTick(count, errors)) == TickSample(count as real, errors as real)
  {
    assert IsTickFor(OneTick(count, errors), count, errors);
    RoundingIsExact(OneTick(count, errors), count, errors);
  }

  /** Idle seconds after a history leave its totals as they were. */
  lemma {:induction false} IdleAddsNothing(h: seq<LiveTick>, n: nat)
    requires AllFaithful(h)
    ensures AllFaithful(h + Idle(n))
    ensures SumStats(Stats(h + Idle(n))) == SumStats(Stats(h))
    ensures SumSamples(Samples(h + Idle(n))) == SumSamples(Samples(h))
  {
    if n == 0 {
      assert h + Idle(0) == h;
    } else {
      IdleAddsNothing(h, n - 1);
      assert h + Idle(n) == h + Idle(n - 1) + [OneTick(0, 0)];
      OneTickCounts(0, 0);
      SumsAppend(h + Idle(n - 1), OneTick(0, 0));
    }
  }

  /** Many clean requests, a stretch of idle seconds, then nothing but failures. */
  function CleanThenFailing(clean: nat, idle: nat, failing: nat): seq<LiveTick> {
    [OneTick(clean, 0)] + Idle(idle) + [OneTick(failing, failing)]
  }

  lemma JustOne(t: LiveTick)
    ensures SumStats(Stats([t])) == StatOf(t) && SumSamples(Samples([t])) == SampleOf(t)
  {
    SumsAppend([], t);
    assert [] + [t] == [t] && Stats([]) == [] && Samples([]) == [];
  }

  /** Until the failures come, the alert sees only the clean requests. */
  lemma CleanThenIdle(clean: nat, idle: nat)
    ensures var h := [OneTick(clean, 0)] + Idle(idle);
            AllFaithful(h) && SumSamples(Samples(h)) == TickSample(clean as real, 0.0)
  {
    OneTickCounts(clean, 0);
    JustOne(OneTick(clean, 0));
    IdleAddsNothing([OneTick(clean, 0)], idle);
  }

  lemma AlertSeesAll(clean: nat, idle: nat, failing: nat)
    ensures var h := CleanThenFailing(clean, idle, failing);
            AllFaithful(h) && SumSamples(Samples(h)) == TickSample((clean + failing) as real, failing as real)
  {
    CleanThenIdle(clean, idle);
    OneTickCounts(failing, failing);
    SumsAppend([OneTick(clean, 0)] + Idle(idle), OneTick(failing, failing));
  }

  lemma IdleCounts(n: nat)
    ensures SumStats(Stats(Idle(n))) == SecStat(0, 0)
  {
    IdleAddsNothing([], n);
    assert [] + Idle(n) == Idle(n) && Stats([]) == [];
  }

  lemma BreakerSeesFailures(clean: nat, idle: nat, failing: nat)
    ensures SumStats(Stats(CleanThenFailing(clean, idle, failing)[1..])) == SecStat(failing, failing)
  {
    var last := OneTick(failing, failing);
    IdleCounts(idle);
    OneTickCounts(failing, failing);
    SumsAppend(Idle(idle), last);
    assert CleanThenFailing(clean, idle, failing)[1..] == Idle(idle) + [last];
  }

  lemma FailuresTrip(s: Settings, clean: nat, failing: nat)
    requires s.cfg.errorRatePct < 100.0 && failing >= 1 && failing >= s.cfg.minRequests
    ensures RateTrips(s, CleanThenFailing(clean, WindowOf(s.cfg) - 1, failing))
  {
    var w := WindowOf(s.cfg);
    var h := CleanThenFailing(clean, w - 1, failing);
    BreakerSeesFailures(clean, w - 1, failing);
    assert Tail(h, w) == h[1..];
    QuotientOfItself(failing as real);
  }

  lemma NeverWarranted(alert: Config, clean: nat, idle: nat, failing: nat)
    requires clean > 0 && WindowOf(alert) >= idle + 2
    requires !Crosses(alert, TickSample((clean + failing) as real, failing as real))
    ensures !Warranted(alert, CleanThenFailing(clean, idle, failing))
  {
    var h := CleanThenFailing(clean, idle, failing);
    forall j | 0 < j <= |h| ensures !Warrants(alert, h[..j]) {
      assert Tail(h[..j], WindowOf(alert)) == h[..j];
      if j < |h| {
        assert h[..j] == [OneTick(clean, 0)] + Idle(j - 1);
        CleanThenIdle(clean, j - 1);
      } else {
        assert h[..j] == h;
        AlertSeesAll(clean, idle, failing);
      }
    }
  }

  /** Enough clean requests dilute any failures below a positive threshold. */
  lemma Diluted(alert: Config, failing: nat) returns (clean: nat)
    requires failing > 0
    ensures clean > 0 && !Crosses(alert, TickSample((clean + failing) as real, failing as real))
  {
    clean := 1;
    if alert.errorRatePct > 0.0 {
      var f, pct := failing as real, alert.errorRatePct;
      var q := 100.0 * f / pct;
      LoadShape.TimesPositive(100.0, f);
      QuotientPositive(100.0 * f, pct);
      clean := q.Floor + 1;
      var all := (clean + failing) as real;
      assert all > q && q * pct == 100.0 * f;
      LoadShape.TimesPositive(all - q, pct);
      assert (all - q) * pct == all * pct - 100.0 * f;
      QuotientPositive(all * pct - 100.0 * f, all);
      assert (all * pct - 100.0 * f) / all == pct - 100.0 * (f / all);
    }
  }

  /**
   An alert with the longer window never always warns, however sensitive: requests that have
   left the breaker's window still dilute the alert's. (Unless the breaker cannot trip at all.)
   */
  lemma LongerWindowNeverWarns(alert: Config, s: Settings)
    requires Enabled(alert) && WindowOf(alert) > WindowOf(s.cfg)
    ensures AlwaysWarns(alert, s) <==> s.cfg.errorRatePct >= 100.0
  {
    if s.cfg.errorRatePct >= 100.0 {
      forall h | AllFaithful(h) ensures !RateTrips(s, h) {
        HundredNeverTrips(s, h);
      }
    } else {
      var w := WindowOf(s.cfg);
      var failing: nat := if s.cfg.minRequests > 1 then s.cfg.minRequests else 1;
      var clean := Diluted(alert, failing);
      var h := CleanThenFailing(clean, w - 1, failing);
      AlertSeesAll(clean, w - 1, failing);
      FailuresTrip(s, clean, failing);
      NeverWarranted(alert, clean, w - 1, failing);
      AlertTracksHistory(alert, h);
    }
  }

  /** How far a window's errors exceed a percentage of its requests. */
  ghost function Excess(h: seq<LiveTick>, pct: real): real {
    Over(SumStats(Stats(h)), pct)
  }

  ghost function Over(total: SecStat, pct: real): real {
    100.0 * total.errors as real - pct * total.count as real
  }

  lemma OverAdds(a: SecStat, b: SecStat, pct: real)
    ensures Over(SecStat(a.count + b.count, a.errors + b.errors), pct) == Over(a, pct) + Over(b, pct)
  {
    assert pct * (a.count + b.count) as real == pct * a.count as real + pct * b.count as real;
  }

  lemma ExcessAppend(h: seq<LiveTick>, t: LiveTick, pct: real)
    ensures Excess(h + [t], pct) == Excess(h, pct) + Over(StatOf(t), pct)
  {
    SumsAppend(h, t);
    OverAdds(SumStats(Stats(h)), StatOf(t), pct);
  }

  lemma ExcessOfNothing(pct: real)
    ensures Excess([], pct) == 0.0
  {
    assert Stats([]) == [];
  }

  lemma {:induction false} ExcessConcat(a: seq<LiveTick>, b: seq<LiveTick>, pct: real)
    ensures Excess(a + b, pct) == Excess(a, pct) + Excess(b, pct)
  {
    if b == [] {
      assert a + b == a;
      ExcessOfNothing(pct);
    } else {
      var front, last := b[..|b| - 1], b[|b| - 1];
      ExcessConcat(a, front, pct);
      assert a + b == a + front + [last] && b == front + [last];
      ExcessAppend(a + front, last, pct);
      ExcessAppend(front, last, pct);
    }
  }

  lemma TailSplits<T>(h: seq<T>, window: int, block: int)
    requires 0 < block < window && block < |h|
    ensures Tail(h, window) == Tail(h[..|h| - block], window - block) + Tail(h, block)
  {
  }

  /** If a window of q blocks exceeds a percentage, so does one of its blocks, seen when it ended. */
  lemma {:induction false} SomeBlockExceeds(h: seq<LiveTick>, pct: real, block: int, q: nat, window: int) returns (j: nat)
    requires block > 0 && window > 0 && window == q * block && Excess(Tail(h, window), pct) > 0.0
    ensures 0 < j <= |h| && Excess(Tail(h[..j], block), pct) > 0.0
    decreases q
  {
    ExcessOfNothing(pct);
    j := |h|;
    assert h[..j] == h;
    if Excess(Tail(h, block), pct) <= 0.0 {
      MultiplesOf(q, block);
      assert block < |h| && block < window;
      TailSplits(h, window, block);
      var front := h[..|h| - block];
      ExcessConcat(Tail(front, window - block), Tail(h, block), pct);
      j := SomeBlockExceeds(front, pct, block, q - 1, window - block);
      assert front[..j] == h[..j];
    }
  }

  lemma MultiplesOf(q: nat, block: int)
    requires block > 0 && q * block > 0
    ensures q > 0 && (q - 1) * block == q * block - block && (q > 1 <==> q * block > block) && (q == 1 ==> q * block == block)
  {
    LoadShape.MultiplesApart(block, q - 1);
    assert q * block == block * q && (q - 1) * block == block * (q - 1) == block * q - block;
  }

  lemma OverIsOverLimit(total: SecStat, c: Config)
    requires 0 <= total.errors <= total.count
    ensures OverLimit(c, total) ==> Over(total, c.errorRatePct) > 0.0
    ensures c.minRequests <= 1 && Over(total, c.errorRatePct) > 0.0 ==> OverLimit(c, total)
  {
    if total.count > 0 {
      OverMeansRate(total.errors as real, total.count as real, c.errorRatePct);
    }
  }

  lemma ExcessIsOverLimit(h: seq<LiveTick>, pct: real)
    requires AllFaithful(h) && Excess(h, pct) > 0.0
    ensures OverLimit(Config(None, pct, 1, 1), SumStats(Stats(h)))
  {
    SameSums(h);
    OverIsOverLimit(SumStats(Stats(h)), Config(None, pct, 1, 1));
  }

  lemma OverLimitIsExcess(c: Config, h: seq<LiveTick>)
    requires AllFaithful(h) && OverLimit(c, SumStats(Stats(h)))
    ensures Excess(h, c.errorRatePct) > 0.0
  {
    SameSums(h);
    OverIsOverLimit(SumStats(Stats(h)), c);
  }

  /**
   An alert with a shorter window always warns if its window divides the breaker's, its
   threshold is positive and no higher, and a single request is volume enough for it.
   */
  lemma DividingWindowWarns(alert: Config, s: Settings, q: nat)
    requires Enabled(alert) && WindowOf(s.cfg) == q * WindowOf(alert)
    requires 0.0 < alert.errorRatePct <= s.cfg.errorRatePct && alert.minRequests <= 1
    ensures AlwaysWarns(alert, s)
  {
    forall h | AllFaithful(h) && RateTrips(s, h) ensures AfterTicks(alert, h).fired {
      var block, window := WindowOf(alert), WindowOf(s.cfg);
      assert AllFaithful(Tail(h, window));
      OverLimitIsExcess(s.cfg, Tail(h, window));
      var j := SomeBlockExceeds(h, s.cfg.errorRatePct, block, q, window);
      var seen := Tail(h[..j], block);
      assert AllFaithful(seen);
      ExcessIsOverLimit(seen, s.cfg.errorRatePct);
      SameSums(seen);
      TotalsWarrant(alert, Config(None, s.cfg.errorRatePct, 1, 1), SumStats(Stats(seen)));
      assert Warrants(alert, h[..j]);
      AlertTracksHistory(alert, h);
    }
  }
}
