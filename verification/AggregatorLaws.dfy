/** The aggregator over a whole run: every second is emitted once, in order, and nothing is lost. */
module AggregatorLaws {
  import opened Collections
  import opened Metrics
  import opened Sampler
  import opened Aggregator

  /** The aggregator together with everything it has emitted so far. */
  datatype Run = Run(agg: State, emitted: seq<Emission>)

  const START := Run(INIT, [])

  datatype Event = Arrive(batch: Batch) | Finalize(cutoff: int, secs: seq<int>)

  ghost predicate Enabled(r: Run, e: Event) {
    e.Finalize? ==> ReadyList(r.agg, e.cutoff, e.secs)
  }

  ghost function Step(r: Run, e: Event): Run {
    match e
    case Arrive(b) => r.(agg := Ingest(r.agg, b))
    case Finalize(_, secs) =>
      var (s, out) := EmitAll(r.agg, secs);
      Run(s, r.emitted + out)
  }

  ghost predicate Trace(runs: seq<Run>, events: seq<Event>) {
    && |runs| == |events| + 1
    && runs[0] == START
    && forall i :: 0 <= i < |events| ==> Enabled(runs[i], events[i]) && runs[i + 1] == Step(runs[i], events[i])
  }

  /**
   A batch for second 0 or earlier arrives after second 0 was emitted: the code takes a
   lastEmitted of 0 to mean that nothing was, and lets it in.
   */
  ghost predicate Relapses(r: Run, e: Event) {
    e.Arrive? && SecOf(e.batch) <= 0 && r.emitted != [] && r.agg.lastEmitted == 0
  }

  ghost predicate NeverRelapses(runs: seq<Run>, events: seq<Event>)
    requires |runs| == |events| + 1
  {
    forall i :: 0 <= i < |events| ==> !Relapses(runs[i], events[i])
  }

  ghost predicate Chronological(emitted: seq<Emission>) {
    forall i, j :: 0 <= i < j < |emitted| ==> emitted[i].sec < emitted[j].sec
  }

  ghost function PendingCounts(buckets: map<int, Buckets>): map<int, int> {
    map sec | sec in buckets :: BucketSum(buckets[sec]).count
  }

  ghost function PendingCount(buckets: map<int, Buckets>): int {
    MapSum(PendingCounts(buckets))
  }

  ghost function EmittedCount(emitted: seq<Emission>): int {
    if emitted == [] then 0
    else EmittedCount(emitted[..|emitted| - 1]) + BucketSum(emitted[|emitted| - 1].buckets).count
  }

  /**
   Emitted seconds strictly increase, the last of them is lastEmitted, whatever is pending is
   later than that, and everything accepted was handed over or is pending.
   */
  ghost predicate Inv(r: Run) {
    && Chronological(r.emitted)
    && (r.emitted == [] ==> r.agg.lastEmitted == 0)
    && (r.emitted != [] ==> r.emitted[|r.emitted| - 1].sec == r.agg.lastEmitted)
    && (r.emitted != [] ==> forall sec :: sec in r.agg.buckets ==> r.agg.lastEmitted < sec)
    && r.agg.totalCount == EmittedCount(r.emitted) + PendingCount(r.agg.buckets)
  }

  // --------------------------------------------------------------------- arrival

  lemma {:induction false} AbsorbAllCount(m: Buckets, agg: seq<AggSlice>)
    ensures BucketSum(AbsorbAll(m, agg)).count == BucketSum(m).count + CountOf(agg)
  {
    if agg != [] {
      var front, last := agg[..|agg| - 1], agg[|agg| - 1];
      AbsorbAllCount(m, front);
      BucketSumAbsorb(AbsorbAll(m, front), last.key, last.bucket);
    }
  }

  lemma ArriveKeeps(r: Run, b: Batch)
    requires Inv(r) && !Relapses(r, Arrive(b))
    ensures Inv(Step(r, Arrive(b)))
  {
    var sec := SecOf(b);
    if !Late(r.agg, sec) {
      PendingGrows(r.agg.buckets, sec, b.agg);
    }
  }

  /** Absorbing slices into one second adds their requests to what is pending. */
  lemma PendingGrows(buckets: map<int, Buckets>, sec: int, agg: seq<AggSlice>)
    ensures var was := Get(buckets, sec, map[]);
            PendingCount(buckets[sec := AbsorbAll(was, agg)]) == PendingCount(buckets) + CountOf(agg)
  {
    var was := Get(buckets, sec, map[]);
    var now := BucketSum(AbsorbAll(was, agg)).count;
    AbsorbAllCount(was, agg);
    assert PendingCounts(buckets[sec := AbsorbAll(was, agg)]) == PendingCounts(buckets)[sec := now];
    MapSumUpdate(PendingCounts(buckets), sec, now);
  }

  // ---------------------------------------------------------------- finalization

  /** Emitting the earliest pending second. */
  lemma EmitOneKeeps(r: Run, sec: int)
    requires Inv(r) && sec in r.agg.buckets
    requires forall other :: other in r.agg.buckets && other != sec ==> sec < other
    ensures var (s, out) := EmitOne(r.agg, sec);
            && Inv(Run(s, r.emitted + out))
            && s.buckets == r.agg.buckets - {sec}
            && |out| == 1 && out[0].sec == sec && out[0].buckets == r.agg.buckets[sec]
  {
    var (s, out) := EmitOne(r.agg, sec);
    var all := r.emitted + out;
    assert all[..|all| - 1] == r.emitted;
    MapSumRemove(PendingCounts(r.agg.buckets), sec);
    assert PendingCounts(s.buckets) == PendingCounts(r.agg.buckets) - {sec};
    PendingIsLater(r);
  }

  /** `secs` are the earliest pending seconds, in order. */
  ghost predicate EarliestFirst(buckets: map<int, Buckets>, secs: seq<int>) {
    && Ascending(secs)
    && (forall sec :: sec in secs ==> sec in buckets)
    && (forall sec, other :: sec in secs && other in buckets && other !in secs ==> sec < other)
  }

  ghost function SetOf(secs: seq<int>): set<int> {
    set sec | sec in secs
  }

  /** `out` is exactly the given seconds of `r`, with their buckets as they stood, and `s` what is left. */
  ghost predicate Handed(r: Run, secs: seq<int>, s: State, out: seq<Emission>) {
    && Inv(Run(s, r.emitted + out))
    && s.buckets == r.agg.buckets - SetOf(secs)
    && |out| == |secs|
    && (forall i :: 0 <= i < |secs| ==>
          secs[i] in r.agg.buckets && out[i].sec == secs[i] && out[i].buckets == r.agg.buckets[secs[i]])
  }

  lemma HandedOneMore(r: Run, front: seq<int>, last: int, s1: State, out1: seq<Emission>)
    requires Handed(r, front, s1, out1) && last !in front && last in r.agg.buckets
    requires forall other :: other in s1.buckets && other != last ==> last < other
    ensures var (s2, out2) := EmitOne(s1, last);
            Handed(r, front + [last], s2, out1 + out2)
  {
    EmitOneKeeps(Run(s1, r.emitted + out1), last);
    var (s2, out2) := EmitOne(s1, last);
    assert r.emitted + out1 + out2 == r.emitted + (out1 + out2);
    assert SetOf(front + [last]) == SetOf(front) + {last};
    assert r.agg.buckets - SetOf(front) - {last} == r.agg.buckets - (SetOf(front) + {last});
  }

  /** Of the earliest seconds in order, all but the last come first, and the last is then the earliest left. */
  lemma EarliestButLast(buckets: map<int, Buckets>, secs: seq<int>)
    requires EarliestFirst(buckets, secs) && secs != []
    ensures var front, last := secs[..|secs| - 1], secs[|secs| - 1];
            && EarliestFirst(buckets, front) && last !in front && last in buckets
            && forall other :: other in buckets - SetOf(front) && other != last ==> last < other
  {
    var front, last := secs[..|secs| - 1], secs[|secs| - 1];
    assert secs == front + [last] && last in secs;
    forall sec, other | sec in front && other in buckets && other !in front ensures sec < other {
      assert sec in secs && (other == last || other !in secs);
    }
    forall other | other in buckets - SetOf(front) && other != last ensures last < other {
      assert other !in front && other !in secs;
    }
  }

  lemma HandedNothing(r: Run)
    requires Inv(r)
    ensures Handed(r, [], r.agg, [])
  {
    assert r.emitted + [] == r.emitted;
    assert r.agg.buckets - {} == r.agg.buckets;
  }

  lemma HandedNext(r: Run, secs: seq<int>, s1: State, out1: seq<Emission>)
    requires EarliestFirst(r.agg.buckets, secs) && secs != [] && Handed(r, secs[..|secs| - 1], s1, out1)
    ensures var (s2, out2) := EmitOne(s1, secs[|secs| - 1]);
            Handed(r, secs, s2, out1 + out2)
  {
    var front, last := secs[..|secs| - 1], secs[|secs| - 1];
    EarliestButLast(r.agg.buckets, secs);
    HandedOneMore(r, front, last, s1, out1);
    assert secs == front + [last];
  }

  /** Each due second is emitted with its buckets as they stood: the skip branch is never taken. */
  lemma {:induction false} EmitAllKeeps(r: Run, secs: seq<int>)
    requires Inv(r) && EarliestFirst(r.agg.buckets, secs)
    ensures Handed(r, secs, EmitAll(r.agg, secs).0, EmitAll(r.agg, secs).1)
    decreases |secs|
  {
    if secs == [] {
      HandedNothing(r);
    } else {
      var front := secs[..|secs| - 1];
      EarliestButLast(r.agg.buckets, secs);
      EmitAllKeeps(r, front);
      HandedNext(r, secs, EmitAll(r.agg, front).0, EmitAll(r.agg, front).1);
    }
  }

  lemma ReadyIsEarliest(s: State, cutoff: int, secs: seq<int>)
    requires ReadyList(s, cutoff, secs)
    ensures EarliestFirst(s.buckets, secs)
  {
  }

  lemma StepKeeps(r: Run, e: Event)
    requires Inv(r) && Enabled(r, e) && !Relapses(r, e)
    ensures Inv(Step(r, e))
  {
    match e
    case Arrive(b) => ArriveKeeps(r, b);
    case Finalize(cutoff, secs) =>
      ReadyIsEarliest(r.agg, cutoff, secs);
      EmitAllKeeps(r, secs);
  }

  /** The exception is exact: a step keeps the order if and only if it is no relapse. */
  lemma OrderedIffNoRelapse(r: Run, e: Event)
    requires Inv(r) && Enabled(r, e)
    ensures Inv(Step(r, e)) <==> !Relapses(r, e)
  {
    if Relapses(r, e) {
      assert SecOf(e.batch) in Step(r, e).agg.buckets;
    } else {
      StepKeeps(r, e);
    }
  }

  /**
   Exactly-once emission and conservation, over any run without a relapse: emitted seconds
   strictly increase, every pending second is later than the last one emitted, and the total
   accepted equals what was handed over plus what is pending.
   */
  lemma {:induction false} ExactlyOnceAndConserved(runs: seq<Run>, events: seq<Event>, i: nat)
    requires Trace(runs, events) && NeverRelapses(runs, events) && i < |runs|
    ensures Inv(runs[i])
    ensures Chronological(runs[i].emitted)
    ensures forall sec, k :: sec in runs[i].agg.buckets && 0 <= k < |runs[i].emitted| ==> runs[i].emitted[k].sec < sec
    ensures runs[i].agg.totalCount == EmittedCount(runs[i].emitted) + PendingCount(runs[i].agg.buckets)
  {
    if i > 0 {
      ExactlyOnceAndConserved(runs, events, i - 1);
      StepKeeps(runs[i - 1], events[i - 1]);
    }
    PendingIsLater(runs[i]);
  }

  lemma PendingIsLater(r: Run)
    requires Inv(r)
    ensures forall sec, k :: sec in r.agg.buckets && 0 <= k < |r.emitted| ==> r.emitted[k].sec < sec
  {
    forall sec, k | sec in r.agg.buckets && 0 <= k < |r.emitted| ensures r.emitted[k].sec < sec {
      assert r.emitted[k].sec <= r.emitted[|r.emitted| - 1].sec;
    }
  }

  /** No second 0 is pending or was emitted. */
  ghost predicate ZeroFree(r: Run) {
    0 !in r.agg.buckets && forall k :: 0 <= k < |r.emitted| ==> r.emitted[k].sec != 0
  }

  lemma ZeroFreeStep(r: Run, e: Event)
    requires Inv(r) && ZeroFree(r) && Enabled(r, e) && (e.Arrive? ==> SecOf(e.batch) != 0)
    ensures !Relapses(r, e) && ZeroFree(Step(r, e))
  {
    if e.Finalize? {
      ReadyIsEarliest(r.agg, e.cutoff, e.secs);
      EmitAllKeeps(r, e.secs);
      var out := EmitAll(r.agg, e.secs).1;
      forall k | 0 <= k < |r.emitted + out| ensures (r.emitted + out)[k].sec != 0 {
        assert k >= |r.emitted| ==> (r.emitted + out)[k] == out[k - |r.emitted|];
      }
    }
  }

  lemma {:induction false} NonzeroSecondsSoFar(runs: seq<Run>, events: seq<Event>, i: nat)
    requires Trace(runs, events) && i < |runs|
    requires forall k :: 0 <= k < i && events[k].Arrive? ==> SecOf(events[k].batch) != 0
    ensures Inv(runs[i]) && ZeroFree(runs[i])
  {
    if i > 0 {
      NonzeroSecondsSoFar(runs, events, i - 1);
      ZeroFreeStep(runs[i - 1], events[i - 1]);
      StepKeeps(runs[i - 1], events[i - 1]);
    }
  }

  /** A run whose batches all avoid second 0, as real clocks do, never relapses. */
  lemma NonzeroSecondsSuffice(runs: seq<Run>, events: seq<Event>)
    requires Trace(runs, events)
    requires forall i :: 0 <= i < |events| && events[i].Arrive? ==> SecOf(events[i].batch) != 0
    ensures NeverRelapses(runs, events)
  {
    forall i | 0 <= i < |events| ensures !Relapses(runs[i], events[i]) {
      NonzeroSecondsSoFar(runs, events, i);
      ZeroFreeStep(runs[i], events[i]);
    }
  }

  /** A drain whose cutoff covers every pending second loses nothing that was accepted. */
  lemma DrainLosesNothing(runs: seq<Run>, events: seq<Event>, i: nat)
    requires Trace(runs, events) && NeverRelapses(runs, events) && i < |events|
    requires events[i].Finalize? && forall sec :: sec in runs[i].agg.buckets ==> sec <= events[i].cutoff
    ensures runs[i + 1].agg.buckets == map[]
    ensures runs[i + 1].agg.totalCount == EmittedCount(runs[i + 1].emitted) == runs[i].agg.totalCount
  {
    var r, secs := runs[i], events[i].secs;
    ExactlyOnceAndConserved(runs, events, i);
    ExactlyOnceAndConserved(runs, events, i + 1);
    ReadyIsEarliest(r.agg, events[i].cutoff, secs);
    EmitAllKeeps(r, secs);
    forall sec | sec in r.agg.buckets ensures sec in SetOf(secs) {
      assert sec in secs;
    }
    assert r.agg.buckets - SetOf(secs) == map[];
    assert PendingCounts(map[]) == map[];
    EmitAllTotal(r.agg, secs);
  }

  lemma {:induction false} EmitAllTotal(s: State, secs: seq<int>)
    ensures EmitAll(s, secs).0.totalCount == s.totalCount
  {
    if secs != [] {
      EmitAllTotal(s, secs[..|secs| - 1]);
    }
  }

  lemma EmitJustOne(s: State, sec: int)
    ensures EmitAll(s, [sec]) == EmitOne(s, sec)
  {
    assert [sec][..0] == [];
    assert [] + EmitOne(s, sec).1 == EmitOne(s, sec).1;
  }

  /** The same batch arrives, its second is finalized, it arrives again, and again all due is finalized. */
  ghost function ReplayEvents(b: Batch): seq<Event> {
    var sec := SecOf(b);
    [Arrive(b), Finalize(sec, [sec]), Arrive(b), Finalize(sec, if sec == 0 then [0] else [])]
  }

  ghost function RunsOf(r: Run, events: seq<Event>): seq<Run>
    decreases |events|
  {
    if events == [] then [r] else [r] + RunsOf(Step(r, events[0]), events[1..])
  }

  lemma FourSteps(r: Run, a: Event, b: Event, c: Event, d: Event)
    ensures var r1 := Step(r, a);
            var r2 := Step(r1, b);
            var r3 := Step(r2, c);
            RunsOf(r, [a, b, c, d]) == [r, r1, r2, r3, Step(r3, d)]
  {
    var r1 := Step(r, a);
    var r2 := Step(r1, b);
    var r3 := Step(r2, c);
    var r4 := Step(r3, d);
    assert RunsOf(r4, []) == [r4];
    assert [d][1..] == [] && RunsOf(r3, [d]) == [r3] + [r4];
    assert [c, d][1..] == [d] && RunsOf(r2, [c, d]) == [r2] + [r3, r4];
    assert [b, c, d][1..] == [c, d] && RunsOf(r1, [b, c, d]) == [r1] + [r2, r3, r4];
    assert [a, b, c, d][1..] == [b, c, d];
  }

  /**
   A relapse is all it takes: replaying a batch leaves the emitted seconds strictly increasing
   if and only if the batch is not stamped with second 0.
   */
  lemma ReplayIsHarmlessIffNonzero(b: Batch)
    ensures var events := ReplayEvents(b);
            var runs := RunsOf(START, events);
            && Trace(runs, events)
            && (Chronological(runs[|events|].emitted) <==> SecOf(b) != 0)
  {
    var events := ReplayEvents(b);
    FourSteps(START, events[0], events[1], events[2], events[3]);
    FirstTime(b);
    SecondTime(b, Step(Step(START, events[0]), events[1]));
  }

  /** A batch arrives and its second is finalized. */
  lemma FirstTime(b: Batch)
    ensures var sec, arrived := SecOf(b), Step(START, Arrive(b));
            var once := Step(arrived, Finalize(sec, [sec]));
            && Enabled(arrived, Finalize(sec, [sec]))
            && |once.emitted| == 1 && once.emitted[0].sec == once.agg.lastEmitted == sec && once.agg.buckets == map[]
  {
    var sec, arrived := SecOf(b), Step(START, Arrive(b));
    assert arrived.agg.buckets.Keys == {sec};
    EmitJustOne(arrived.agg, sec);
  }

  /** It arrives once more: late, unless its second is 0. */
  lemma SecondTime(b: Batch, once: Run)
    requires |once.emitted| == 1 && once.emitted[0].sec == once.agg.lastEmitted == SecOf(b) && once.agg.buckets == map[]
    ensures var again, last := Step(once, Arrive(b)), ReplayEvents(b)[3];
            && Enabled(again, last)
            && (Chronological(Step(again, last).emitted) <==> SecOf(b) != 0)
  {
    var again := Step(once, Arrive(b));
    if SecOf(b) == 0 {
      assert again.agg.buckets.Keys == {0};
      EmitJustOne(again.agg, 0);
      var end := Step(again, ReplayEvents(b)[3]);
      assert end.emitted[0].sec == 0 && end.emitted[1].sec == 0;
    } else {
      assert again.agg.buckets == map[];
      assert Step(again, ReplayEvents(b)[3]).emitted == once.emitted;
    }
  }

  // ---------------------------------------------------- late batches, VUs and samples

  /** A batch is turned away exactly if its second, or a later one, was emitted. */
  lemma LateIffOvertaken(r: Run, sec: int)
    requires Inv(r) && ZeroFree(r)
    ensures Late(r.agg, sec) <==> exists k :: 0 <= k < |r.emitted| && sec <= r.emitted[k].sec
  {
    if r.emitted != [] {
      var n := |r.emitted| - 1;
      assert forall k :: 0 <= k < n ==> r.emitted[k].sec < r.emitted[n].sec;
    }
  }

  /** Being turned away leaves a trace in one counter only. */
  lemma LateIsOnlyCounted(r: Run, b: Batch)
    ensures Late(r.agg, SecOf(b)) ==>
              Step(r, Arrive(b)) == Run(r.agg.(lateBatches := r.agg.lateBatches + 1), r.emitted)
    ensures !Late(r.agg, SecOf(b)) ==> Step(r, Arrive(b)).agg.lateBatches == r.agg.lateBatches
  {
  }

  /** What the workers last said about a second's VUs, in the batches that were not late. */
  ghost function VuReports(runs: seq<Run>, events: seq<Event>, i: nat, sec: int): map<WorkerId, int>
    requires |runs| == |events| + 1 && i < |runs|
  {
    if i == 0 then map[]
    else
      var m, e := VuReports(runs, events, i - 1, sec), events[i - 1];
      if Accepts(runs[i - 1], e, sec) then m[e.batch.workerId := e.batch.activeVus] else m
  }

  /** The raw samples of a second in the order in which they came in time. */
  ghost function SampleReports(runs: seq<Run>, events: seq<Event>, i: nat, sec: int): seq<Result>
    requires |runs| == |events| + 1 && i < |runs|
  {
    if i == 0 then []
    else SampleReports(runs, events, i - 1, sec) + if Accepts(runs[i - 1], events[i - 1], sec) then events[i - 1].batch.samples else []
  }

  ghost predicate Accepts(r: Run, e: Event, sec: int) {
    e.Arrive? && SecOf(e.batch) == sec && !Late(r.agg, sec)
  }

  function First80(samples: seq<Result>): seq<Result> {
    if |samples| <= 80 then samples else samples[..80]
  }

  ghost predicate WasEmitted(r: Run, sec: int) {
    exists k :: 0 <= k < |r.emitted| && r.emitted[k].sec == sec
  }

  /** One second's VUs and samples are those reported for it, whether it is pending, emitted or unheard of. */
  ghost predicate KeepsReports(r: Run, sec: int, vus: map<WorkerId, int>, samples: seq<Result>) {
    && HoldsReports(r.agg, sec, vus, samples)
    && (sec !in r.agg.buckets && !WasEmitted(r, sec) ==> vus == map[] && samples == [])
    && ShowsReports(r.emitted, sec, vus, samples)
  }

  ghost predicate HoldsReports(s: State, sec: int, vus: map<WorkerId, int>, samples: seq<Result>) {
    && Get(s.vus, sec, map[]) == (if sec in s.buckets then vus else map[])
    && Get(s.samples, sec, []) == (if sec in s.buckets then First80(samples) else [])
  }

  ghost predicate ShowsReports(emitted: seq<Emission>, sec: int, vus: map<WorkerId, int>, samples: seq<Result>) {
    forall k :: 0 <= k < |emitted| && emitted[k].sec == sec ==>
      emitted[k].activeVus == MapSum(vus) && emitted[k].samples == First80(samples)
  }

  lemma CappedIsFirst(a: seq<Result>, b: seq<Result>)
    ensures Capped(First80(a), b) == First80(a + b)
  {
  }

  lemma ArriveReports(r: Run, b: Batch, sec: int, vus: map<WorkerId, int>, samples: seq<Result>)
    requires Inv(r) && !Relapses(r, Arrive(b)) && KeepsReports(r, sec, vus, samples)
    ensures var mine := Accepts(r, Arrive(b), sec);
            KeepsReports(Step(r, Arrive(b)), sec,
                         if mine then vus[b.workerId := b.activeVus] else vus,
                         samples + if mine then b.samples else [])
  {
    assert samples + [] == samples;
    PendingIsLater(r);
    if Accepts(r, Arrive(b), sec) {
      CappedIsFirst(samples, b.samples);
      assert !WasEmitted(r, sec) by {
        forall k | 0 <= k < |r.emitted| ensures r.emitted[k].sec < sec {
          assert r.emitted[k].sec <= r.emitted[|r.emitted| - 1].sec;
        }
      }
    }
  }

  /** The VUs and samples that go out with an emission are those held for its second. */
  lemma {:induction false} EmitAllCarries(s: State, secs: seq<int>)
    requires forall i, j :: 0 <= i < j < |secs| ==> secs[i] != secs[j]
    ensures var (s', out) := EmitAll(s, secs);
            && s'.vus == s.vus - SetOf(secs) && s'.samples == s.samples - SetOf(secs)
            && forall k :: 0 <= k < |out| ==>
                 out[k].activeVus == MapSum(Get(s.vus, out[k].sec, map[])) && out[k].samples == Get(s.samples, out[k].sec, [])
    decreases |secs|
  {
    if secs == [] {
      assert s.vus - {} == s.vus && s.samples - {} == s.samples;
    } else {
      var front, last := secs[..|secs| - 1], secs[|secs| - 1];
      EmitAllCarries(s, front);
      assert secs == front + [last] && last !in front;
      assert SetOf(secs) == SetOf(front) + {last} && last !in SetOf(front);
      var (s1, out) := EmitAll(s, front);
      assert s1.vus - {last} == s.vus - SetOf(secs) && s1.samples - {last} == s.samples - SetOf(secs);
      assert Get(s1.vus, last, map[]) == Get(s.vus, last, map[]) && Get(s1.samples, last, []) == Get(s.samples, last, []);
    }
  }

  lemma HandedShowsReports(r: Run, secs: seq<int>, s: State, out: seq<Emission>, sec: int, vus: map<WorkerId, int>, samples: seq<Result>)
    requires KeepsReports(r, sec, vus, samples) && Handed(r, secs, s, out)
    requires forall k :: 0 <= k < |out| ==>
               out[k].activeVus == MapSum(Get(r.agg.vus, out[k].sec, map[])) && out[k].samples == Get(r.agg.samples, out[k].sec, [])
    ensures ShowsReports(r.emitted + out, sec, vus, samples)
  {
    var n, all := |r.emitted|, r.emitted + out;
    forall k | 0 <= k < |all| && all[k].sec == sec
      ensures all[k].activeVus == MapSum(vus) && all[k].samples == First80(samples)
    {
      if k >= n {
        assert all[k] == out[k - n] && secs[k - n] == sec;
      } else {
        assert all[k] == r.emitted[k];
      }
    }
  }

  lemma StillHoldsReports(s: State, s': State, secs: seq<int>, sec: int, vus: map<WorkerId, int>, samples: seq<Result>)
    requires HoldsReports(s, sec, vus, samples)
    requires s'.buckets == s.buckets - SetOf(secs) && s'.vus == s.vus - SetOf(secs) && s'.samples == s.samples - SetOf(secs)
    ensures HoldsReports(s', sec, vus, samples)
  {
  }

  lemma HandedIsNotForgotten(r: Run, secs: seq<int>, s: State, out: seq<Emission>, sec: int)
    requires Handed(r, secs, s, out) && (sec in r.agg.buckets || WasEmitted(r, sec))
    ensures sec in s.buckets || WasEmitted(Run(s, r.emitted + out), sec)
  {
    var n, all := |r.emitted|, r.emitted + out;
    if WasEmitted(r, sec) {
      var k :| 0 <= k < n && r.emitted[k].sec == sec;
      assert all[k].sec == sec;
    } else if sec in SetOf(secs) {
      var i :| 0 <= i < |secs| && secs[i] == sec;
      assert all[n + i].sec == sec;
    }
  }

  lemma FinalizeReports(r: Run, cutoff: int, secs: seq<int>, sec: int, vus: map<WorkerId, int>, samples: seq<Result>)
    requires Inv(r) && ReadyList(r.agg, cutoff, secs) && KeepsReports(r, sec, vus, samples)
    ensures KeepsReports(Step(r, Finalize(cutoff, secs)), sec, vus, samples)
  {
    ReadyIsEarliest(r.agg, cutoff, secs);
    EmitAllKeeps(r, secs);
    EmitAllCarries(r.agg, secs);
    var s, out := EmitAll(r.agg, secs).0, EmitAll(r.agg, secs).1;
    HandedShowsReports(r, secs, s, out, sec, vus, samples);
    StillHoldsReports(r.agg, s, secs, sec, vus, samples);
    if sec in r.agg.buckets || WasEmitted(r, sec) {
      HandedIsNotForgotten(r, secs, s, out, sec);
    }
  }

  lemma {:induction false} ReportsSoFar(runs: seq<Run>, events: seq<Event>, i: nat, sec: int)
    requires Trace(runs, events) && NeverRelapses(runs, events) && i < |runs|
    ensures KeepsReports(runs[i], sec, VuReports(runs, events, i, sec), SampleReports(runs, events, i, sec))
  {
    if i > 0 {
      ReportsSoFar(runs, events, i - 1, sec);
      ExactlyOnceAndConserved(runs, events, i - 1);
      var vus, samples := VuReports(runs, events, i - 1, sec), SampleReports(runs, events, i - 1, sec);
      match events[i - 1]
      case Arrive(b) => ArriveReports(runs[i - 1], b, sec, vus, samples);
      case Finalize(cutoff, secs) =>
        FinalizeReports(runs[i - 1], cutoff, secs, sec, vus, samples);
        assert samples + [] == samples;
    }
  }

  /**
   Over any run without a relapse, an emitted second shows as its VUs the sum of what each worker
   last reported for that second in time, and carries the first 80 samples that came for it.
   */
  lemma EmissionShowsReports(runs: seq<Run>, events: seq<Event>, i: nat, k: nat)
    requires Trace(runs, events) && NeverRelapses(runs, events) && i < |runs| && k < |runs[i].emitted|
    ensures var e := runs[i].emitted[k];
            && e.activeVus == MapSum(VuReports(runs, events, i, e.sec))
            && e.samples == First80(SampleReports(runs, events, i, e.sec))
  {
    ReportsSoFar(runs, events, i, runs[i].emitted[k].sec);
  }
}
