/**
 The metrics pipeline end to end: workers record and flush, batches travel and may overtake
 one another, the aggregator merges and emits. Compared throughout with one central recorder
 per flush second that sees every result.
 */
module Pipeline {
  import opened Collections
  import opened Metrics
  import opened Sampler
  import opened Aggregator
  import AggregatorLaws

  /** A batch on its way, with the results it digests. */
  datatype Flight = Flight(batch: Batch, results: seq<Result>)

  /**
   The last three fields are history: what a central recorder was fed per flush second, and
   which of it reached the aggregator in time or too late.
   */
  datatype Cluster = Cluster(
    windows: map<WorkerId, seq<Result>>,
    flying: seq<Flight>,
    run: AggregatorLaws.Run,
    central: Logbook,
    accepted: Logbook,
    late: Logbook)

  const INIT := Cluster(map[], [], AggregatorLaws.START, map[], map[], map[])

  function Window(c: Cluster, w: WorkerId): seq<Result> {
    if w in c.windows then c.windows[w] else []
  }

  datatype Event =
    | Observe(worker: WorkerId, result: Result)
    | Flush(worker: WorkerId, batch: Batch)
    | Deliver(flight: nat)
    | Finalize(cutoff: int, secs: seq<int>)

  /** A flushed batch is what the sampler's Flush promises; any batch in flight may arrive next. */
  ghost predicate Enabled(c: Cluster, e: Event) {
    match e
    case Observe(_, _) => true
    case Flush(w, b) => SecOf(b) != 0 && Lists(b.agg, RecordAll(Window(c, w)))
    case Deliver(i) => i < |c.flying|
    case Finalize(cutoff, secs) => ReadyList(c.run.agg, cutoff, secs)
  }

  function Log(m: Logbook, sec: int, more: seq<Result>): Logbook {
    m[sec := Get(m, sec, []) + more]
  }

  ghost function Step(c: Cluster, e: Event): Cluster
    requires Enabled(c, e)
  {
    match e
    case Observe(w, r) => c.(windows := c.windows[w := Window(c, w) + [r]])
    case Flush(w, b) =>
      c.(windows := c.windows[w := []],
         flying := c.flying + [Flight(b, Window(c, w))],
         central := Log(c.central, SecOf(b), Window(c, w)))
    case Deliver(i) =>
      var f := c.flying[i];
      var sec := SecOf(f.batch);
      var landed := c.(flying := c.flying[..i] + c.flying[i + 1..],
                       run := AggregatorLaws.Step(c.run, AggregatorLaws.Arrive(f.batch)));
      if Late(c.run.agg, sec) then landed.(late := Log(c.late, sec, f.results))
      else landed.(accepted := Log(c.accepted, sec, f.results))
    case Finalize(cutoff, secs) =>
      c.(run := AggregatorLaws.Step(c.run, AggregatorLaws.Finalize(cutoff, secs)))
  }

  ghost predicate Trace(cs: seq<Cluster>, events: seq<Event>) {
    && |cs| == |events| + 1
    && cs[0] == INIT
    && forall i :: 0 <= i < |events| ==> Enabled(cs[i], events[i]) && cs[i + 1] == Step(cs[i], events[i])
  }

  // ------------------------------------------------------------------- in flight

  ghost function Airborne(flying: seq<Flight>, sec: int): seq<Result> {
    if flying == [] then []
    else
      var last := flying[|flying| - 1];
      Airborne(flying[..|flying| - 1], sec) + if SecOf(last.batch) == sec then last.results else []
  }

  lemma {:induction false} AirborneConcat(a: seq<Flight>, b: seq<Flight>, sec: int)
    ensures Airborne(a + b, sec) == Airborne(a, sec) + Airborne(b, sec)
  {
    if b == [] {
      assert a + b == a;
    } else {
      assert (a + b)[..|a + b| - 1] == a + b[..|b| - 1];
      AirborneConcat(a, b[..|b| - 1], sec);
    }
  }

  lemma AirborneOne(f: Flight, sec: int)
    ensures Airborne([f], sec) == if SecOf(f.batch) == sec then f.results else []
  {
    assert [f][..0] == [];
  }

  lemma Landing(flying: seq<Flight>, i: nat, sec: int)
    requires i < |flying|
    ensures multiset(Airborne(flying, sec))
         == multiset(Airborne(flying[..i] + flying[i + 1..], sec))
            + if SecOf(flying[i].batch) == sec then multiset(flying[i].results) else multiset{}
  {
    var l, r := flying[..i], flying[i + 1..];
    assert flying == l + [flying[i]] + r;
    AirborneConcat(l + [flying[i]], r, sec);
    AirborneConcat(l, [flying[i]], sec);
    AirborneConcat(l, r, sec);
    AirborneOne(flying[i], sec);
  }

  // -------------------------------------------------------------------- invariant

  ghost predicate Emitted(run: AggregatorLaws.Run, sec: int) {
    exists k :: 0 <= k < |run.emitted| && run.emitted[k].sec == sec
  }

  ghost predicate FlightsFit(flying: seq<Flight>) {
    forall i :: 0 <= i < |flying| ==>
      SecOf(flying[i].batch) != 0 && Lists(flying[i].batch.agg, RecordAll(flying[i].results))
  }

  type Logbook = map<int, seq<Result>>

  /** Whatever the central recorder saw is accepted, late, or still on its way. */
  ghost predicate Balanced(central: Logbook, accepted: Logbook, late: Logbook, flying: seq<Flight>, sec: int) {
    multiset(Get(central, sec, []))
    == multiset(Get(accepted, sec, [])) + multiset(Get(late, sec, [])) + multiset(Airborne(flying, sec))
  }

  ghost predicate AllBalanced(c: Cluster) {
    forall sec :: Balanced(c.central, c.accepted, c.late, c.flying, sec)
  }

  /** Pending and emitted buckets are what recording the accepted results would give. */
  ghost predicate Recorded(run: AggregatorLaws.Run, accepted: Logbook) {
    && PendingRecorded(run.agg.buckets, accepted)
    && EmittedRecorded(run.emitted, accepted)
    && (forall sec :: sec in accepted ==> Seen(run, sec))
  }

  ghost predicate PendingRecorded(buckets: map<int, Buckets>, accepted: Logbook) {
    forall sec :: sec in buckets ==> buckets[sec] == RecordAll(Get(accepted, sec, []))
  }

  ghost predicate EmittedRecorded(emitted: seq<Emission>, accepted: Logbook) {
    forall k :: 0 <= k < |emitted| ==> emitted[k].buckets == RecordAll(Get(accepted, emitted[k].sec, []))
  }

  ghost predicate Seen(run: AggregatorLaws.Run, sec: int) {
    sec in run.agg.buckets || Emitted(run, sec)
  }

  ghost predicate Inv(c: Cluster) {
    && AggregatorLaws.Inv(c.run) && AggregatorLaws.ZeroFree(c.run)
    && FlightsFit(c.flying)
    && AllBalanced(c)
    && Recorded(c.run, c.accepted)
  }

  lemma ListsNothing(x: Buckets)
    requires Lists([], x)
    ensures x == map[]
  {
    assert forall k :: k !in x;
  }

  lemma Reinsert(x: Buckets, k: Key)
    requires k in x
    ensures Absorb(x - {k}, k, x[k]) == x
  {
    assert ZERO.hist + x[k].hist == x[k].hist;
    assert Plus(ZERO, x[k]) == x[k];
  }

  lemma ListsFront(agg: seq<AggSlice>, x: Buckets)
    requires Lists(agg, x) && agg != []
    ensures Lists(agg[..|agg| - 1], x - {agg[|agg| - 1].key})
  {
    var front, rest := agg[..|agg| - 1], x - {agg[|agg| - 1].key};
    forall k | k in rest ensures exists i :: 0 <= i < |front| && front[i].key == k {
      var i :| 0 <= i < |agg| && agg[i].key == k;
      assert front[i].key == k;
    }
  }

  /** Absorbing the slices of a flushed batch is merging the buckets it lists. */
  lemma {:induction false} AbsorbIsMerge(m: Buckets, agg: seq<AggSlice>, x: Buckets)
    requires Lists(agg, x)
    ensures AbsorbAll(m, agg) == Merge(m, x)
    decreases |agg|
  {
    if agg == [] {
      ListsNothing(x);
      MergeNothing(m);
    } else {
      var front, last := agg[..|agg| - 1], agg[|agg| - 1];
      var rest := x - {last.key};
      ListsFront(agg, x);
      AbsorbIsMerge(m, front, rest);
      MergeAbsorb(m, rest, last.key, last.bucket);
      Reinsert(x, last.key);
    }
  }

  /** A second that is emitted is late from then on. */
  lemma EmittedIsLate(run: AggregatorLaws.Run, sec: int)
    requires AggregatorLaws.Inv(run) && AggregatorLaws.ZeroFree(run) && Emitted(run, sec)
    ensures Late(run.agg, sec) && sec !in run.agg.buckets
  {
    var k :| 0 <= k < |run.emitted| && run.emitted[k].sec == sec;
    assert run.emitted[k].sec <= run.emitted[|run.emitted| - 1].sec;
  }

  /** The bucket a batch lands in holds the recording of everything accepted for its second. */
  lemma LandsInTheRecording(run: AggregatorLaws.Run, accepted: Logbook, b: Batch, results: seq<Result>)
    requires AggregatorLaws.Inv(run) && AggregatorLaws.ZeroFree(run) && Recorded(run, accepted)
    requires !Late(run.agg, SecOf(b)) && Lists(b.agg, RecordAll(results))
    ensures AbsorbAll(Get(run.agg.buckets, SecOf(b), map[]), b.agg)
         == RecordAll(Get(accepted, SecOf(b), []) + results)
    ensures !Emitted(run, SecOf(b))
  {
    var sec := SecOf(b);
    if Emitted(run, sec) {
      EmittedIsLate(run, sec);
    }
    var had := Get(accepted, sec, []);
    assert Get(run.agg.buckets, sec, map[]) == RecordAll(had);
    AbsorbIsMerge(RecordAll(had), b.agg, RecordAll(results));
    RecordDistributes(had, results);
  }

  lemma IngestRecorded(run: AggregatorLaws.Run, accepted: Logbook, b: Batch, results: seq<Result>)
    requires AggregatorLaws.Inv(run) && AggregatorLaws.ZeroFree(run) && Recorded(run, accepted)
    requires !Late(run.agg, SecOf(b)) && Lists(b.agg, RecordAll(results))
    ensures Recorded(AggregatorLaws.Step(run, AggregatorLaws.Arrive(b)), Log(accepted, SecOf(b), results))
  {
    var sec, run', accepted' := SecOf(b), AggregatorLaws.Step(run, AggregatorLaws.Arrive(b)), Log(accepted, SecOf(b), results);
    LandsInTheRecording(run, accepted, b, results);
    var bk := AbsorbAll(Get(run.agg.buckets, sec, map[]), b.agg);
    assert run'.emitted == run.emitted && run'.agg.buckets == run.agg.buckets[sec := bk];
    OneSecondMore(run, accepted, sec, bk, results);
    forall s | s in accepted' ensures Seen(run', s) {
      assert s != sec ==> Seen(run, s);
    }
  }

  lemma OneSecondMore(run: AggregatorLaws.Run, accepted: Logbook, sec: int, bk: Buckets, results: seq<Result>)
    requires Recorded(run, accepted) && !Emitted(run, sec)
    requires bk == RecordAll(Get(accepted, sec, []) + results)
    ensures PendingRecorded(run.agg.buckets[sec := bk], Log(accepted, sec, results))
    ensures EmittedRecorded(run.emitted, Log(accepted, sec, results))
  {
    forall k | 0 <= k < |run.emitted| ensures run.emitted[k].sec != sec {
      assert run.emitted[k].sec == sec ==> Emitted(run, sec);
    }
  }

  lemma LogAdds(m: Logbook, at: int, more: seq<Result>, sec: int)
    ensures multiset(Get(Log(m, at, more), sec, []))
         == multiset(Get(m, sec, [])) + if at == sec then multiset(more) else multiset{}
  {
  }

  lemma Regroup<T>(all: multiset<T>, a: multiset<T>, l: multiset<T>, air: multiset<T>, rest: multiset<T>, f: multiset<T>)
    requires all == a + l + air && air == rest + f
    ensures all == (a + f) + l + rest && all == a + (l + f) + rest
  {
  }

  /** A landing batch moves its results from the air to one of the other two ledgers. */
  lemma LandBalanced(central: Logbook, accepted: Logbook, late: Logbook, flying: seq<Flight>, i: nat, sec: int)
    requires i < |flying| && Balanced(central, accepted, late, flying, sec)
    ensures var f, rest := flying[i], flying[..i] + flying[i + 1..];
            && Balanced(central, Log(accepted, SecOf(f.batch), f.results), late, rest, sec)
            && Balanced(central, accepted, Log(late, SecOf(f.batch), f.results), rest, sec)
  {
    var f, rest := flying[i], flying[..i] + flying[i + 1..];
    Landing(flying, i, sec);
    LogAdds(accepted, SecOf(f.batch), f.results, sec);
    LogAdds(late, SecOf(f.batch), f.results, sec);
    Regroup(multiset(Get(central, sec, [])), multiset(Get(accepted, sec, [])), multiset(Get(late, sec, [])),
            multiset(Airborne(flying, sec)), multiset(Airborne(rest, sec)),
            if SecOf(f.batch) == sec then multiset(f.results) else multiset{});
  }

  lemma DeliverBalanced(c: Cluster, i: nat)
    requires AllBalanced(c) && i < |c.flying|
    ensures AllBalanced(Step(c, Deliver(i)))
  {
    var f, c' := c.flying[i], Step(c, Deliver(i));
    var rest, sec0 := c.flying[..i] + c.flying[i + 1..], SecOf(f.batch);
    forall sec
      ensures Balanced(c.central, Log(c.accepted, sec0, f.results), c.late, rest, sec)
      ensures Balanced(c.central, c.accepted, Log(c.late, sec0, f.results), rest, sec)
    {
      LandBalanced(c.central, c.accepted, c.late, c.flying, i, sec);
    }
    assert c'.central == c.central && c'.flying == rest;
  }

  lemma DeliverRecorded(c: Cluster, i: nat)
    requires Inv(c) && i < |c.flying|
    ensures Recorded(Step(c, Deliver(i)).run, Step(c, Deliver(i)).accepted)
  {
    var f, c' := c.flying[i], Step(c, Deliver(i));
    if Late(c.run.agg, SecOf(f.batch)) {
      assert c'.run.emitted == c.run.emitted && c'.run.agg.buckets == c.run.agg.buckets;
      forall s | s in c.accepted ensures Seen(c'.run, s) {
        assert Seen(c.run, s);
      }
    } else {
      IngestRecorded(c.run, c.accepted, f.batch, f.results);
    }
  }

  lemma ArrivalKeepsLaws(run: AggregatorLaws.Run, b: Batch)
    requires AggregatorLaws.Inv(run) && AggregatorLaws.ZeroFree(run) && SecOf(b) != 0
    ensures var run' := AggregatorLaws.Step(run, AggregatorLaws.Arrive(b));
            AggregatorLaws.Inv(run') && AggregatorLaws.ZeroFree(run')
  {
    AggregatorLaws.ZeroFreeStep(run, AggregatorLaws.Arrive(b));
    AggregatorLaws.ArriveKeeps(run, b);
  }

  lemma DeliverKeeps(c: Cluster, i: nat)
    requires Inv(c) && i < |c.flying|
    ensures Inv(Step(c, Deliver(i)))
  {
    ArrivalKeepsLaws(c.run, c.flying[i].batch);
    DeliverRecorded(c, i);
    FlightsFitWithout(c.flying, i);
    DeliverBalanced(c, i);
  }

  lemma FlightsFitWithout(flying: seq<Flight>, i: nat)
    requires FlightsFit(flying) && i < |flying|
    ensures FlightsFit(flying[..i] + flying[i + 1..])
  {
    var rest := flying[..i] + flying[i + 1..];
    assert forall k :: 0 <= k < |rest| ==> rest[k] == flying[if k < i then k else k + 1];
  }

  lemma FlushKeeps(c: Cluster, w: WorkerId, b: Batch)
    requires Inv(c) && Enabled(c, Flush(w, b))
    ensures Inv(Step(c, Flush(w, b)))
  {
    var f := Flight(b, Window(c, w));
    forall sec ensures Balanced(Log(c.central, SecOf(b), f.results), c.accepted, c.late, c.flying + [f], sec) {
      TakeOffBalanced(c.central, c.accepted, c.late, c.flying, f, sec);
    }
  }

  lemma TakeOffBalanced(central: Logbook, accepted: Logbook, late: Logbook, flying: seq<Flight>, f: Flight, sec: int)
    requires Balanced(central, accepted, late, flying, sec)
    ensures Balanced(Log(central, SecOf(f.batch), f.results), accepted, late, flying + [f], sec)
  {
    LogAdds(central, SecOf(f.batch), f.results, sec);
    AirborneConcat(flying, [f], sec);
    AirborneOne(f, sec);
  }

  /** What is handed over was recorded, and so is what is left. */
  lemma HandedIsRecorded(run: AggregatorLaws.Run, secs: seq<int>, s: State, out: seq<Emission>, accepted: Logbook)
    requires AggregatorLaws.Handed(run, secs, s, out)
    requires PendingRecorded(run.agg.buckets, accepted) && EmittedRecorded(run.emitted, accepted)
    ensures PendingRecorded(s.buckets, accepted) && EmittedRecorded(run.emitted + out, accepted)
  {
    var n, all := |run.emitted|, run.emitted + out;
    forall k | 0 <= k < |all| ensures all[k].buckets == RecordAll(Get(accepted, all[k].sec, [])) {
      if k >= n {
        assert all[k] == out[k - n] && out[k - n].sec == secs[k - n];
      }
    }
  }

  lemma FinalizeKeeps(c: Cluster, cutoff: int, secs: seq<int>)
    requires Inv(c) && Enabled(c, Finalize(cutoff, secs))
    ensures Inv(Step(c, Finalize(cutoff, secs)))
  {
    var c' := Step(c, Finalize(cutoff, secs));
    AggregatorLaws.ReadyIsEarliest(c.run.agg, cutoff, secs);
    AggregatorLaws.EmitAllKeeps(c.run, secs);
    AggregatorLaws.ZeroFreeStep(c.run, AggregatorLaws.Finalize(cutoff, secs));
    var (s, out) := EmitAll(c.run.agg, secs);
    assert c'.run == AggregatorLaws.Run(s, c.run.emitted + out);
    HandedIsRecorded(c.run, secs, s, out, c.accepted);
    forall sec | sec in c.accepted ensures Seen(c'.run, sec) {
      assert Seen(c.run, sec);
      FinalizeReaches(c.run, cutoff, secs, sec);
    }
  }

  /** Finalizing moves a second from pending to emitted and forgets none. */
  lemma FinalizeReaches(run: AggregatorLaws.Run, cutoff: int, secs: seq<int>, sec: int)
    requires AggregatorLaws.Inv(run) && ReadyList(run.agg, cutoff, secs)
    requires Seen(run, sec)
    ensures var run' := AggregatorLaws.Step(run, AggregatorLaws.Finalize(cutoff, secs));
            Seen(run', sec)
  {
    AggregatorLaws.ReadyIsEarliest(run.agg, cutoff, secs);
    AggregatorLaws.EmitAllKeeps(run, secs);
    var (s, out) := EmitAll(run.agg, secs);
    var all := run.emitted + out;
    if Emitted(run, sec) {
      var k :| 0 <= k < |run.emitted| && run.emitted[k].sec == sec;
      assert all[k].sec == sec;
    } else if sec in secs {
      var j :| 0 <= j < |secs| && secs[j] == sec;
      assert all[|run.emitted| + j].sec == sec;
    } else {
      assert sec !in AggregatorLaws.SetOf(secs);
    }
  }

  lemma StepKeeps(c: Cluster, e: Event)
    requires Inv(c) && Enabled(c, e)
    ensures Inv(Step(c, e))
  {
    match e
    case Observe(w, r) =>
    case Flush(w, b) => FlushKeeps(c, w, b);
    case Deliver(i) => DeliverKeeps(c, i);
    case Finalize(cutoff, secs) => FinalizeKeeps(c, cutoff, secs);
  }

  lemma {:induction false} AlwaysInv(cs: seq<Cluster>, events: seq<Event>, i: nat)
    requires Trace(cs, events) && i < |cs|
    ensures Inv(cs[i])
  {
    if i > 0 {
      AlwaysInv(cs, events, i - 1);
      StepKeeps(cs[i - 1], events[i - 1]);
    }
  }

  // --------------------------------------------------------------- the main results

  /** The results of a flush second that did not make it into its emission. */
  ghost function Missing(c: Cluster, sec: int): seq<Result> {
    Get(c.late, sec, []) + Airborne(c.flying, sec)
  }

  /**
   In every state of every run, for any number of workers, any flush schedule and any order of
   arrival: an emitted second plus the results that came late or are still travelling equals
   what one central recorder, fed every result of that flush second, holds.
   */
  lemma EmissionPlusMissingIsCentral(cs: seq<Cluster>, events: seq<Event>, i: nat, k: nat)
    requires Trace(cs, events) && i < |cs| && k < |cs[i].run.emitted|
    ensures var e := cs[i].run.emitted[k];
            Merge(e.buckets, RecordAll(Missing(cs[i], e.sec))) == RecordAll(Get(cs[i].central, e.sec, []))
  {
    AlwaysInv(cs, events, i);
    var c, e := cs[i], cs[i].run.emitted[k];
    var took := Get(c.accepted, e.sec, []);
    assert Balanced(c.central, c.accepted, c.late, c.flying, e.sec);
    RecordDistributes(took, Missing(c, e.sec));
    RecordIgnoresOrder(took + Missing(c, e.sec), Get(c.central, e.sec, []));
  }

  /** Merging in at least one result changes the buckets. */
  lemma MissingShows(a: Buckets, rs: seq<Result>)
    requires rs != []
    ensures Merge(a, RecordAll(rs)) != a
  {
    var k := KeyOf(rs[|rs| - 1]);
    ClassLaws(rs, k);
    AtMerge(a, RecordAll(rs), k);
    assert At(Merge(a, RecordAll(rs)), k).count == At(a, k).count + RecordAll(rs)[k].count;
  }

  /**
   Distributed aggregation refines central recording exactly when nothing of the second is
   late or on its way: then, and only then, the emitted buckets are the central recorder's.
   */
  lemma RefinesCentralIffNothingMissing(cs: seq<Cluster>, events: seq<Event>, i: nat, k: nat)
    requires Trace(cs, events) && i < |cs| && k < |cs[i].run.emitted|
    ensures var e := cs[i].run.emitted[k];
            e.buckets == RecordAll(Get(cs[i].central, e.sec, [])) <==> Missing(cs[i], e.sec) == []
  {
    var c, e := cs[i], cs[i].run.emitted[k];
    EmissionPlusMissingIsCentral(cs, events, i, k);
    if Missing(c, e.sec) == [] {
      MergeNothing(e.buckets);
    } else {
      MissingShows(e.buckets, Missing(c, e.sec));
    }
  }

  /** Every bucket ever emitted obeys the class laws, so its error rate is a proper fraction. */
  lemma EmittedBucketsAreLawful(cs: seq<Cluster>, events: seq<Event>, i: nat, k: nat, key: Key)
    requires Trace(cs, events) && i < |cs| && k < |cs[i].run.emitted| && key in cs[i].run.emitted[k].buckets
    ensures var b := cs[i].run.emitted[k].buckets[key];
            && 0 <= b.errors <= b.count && 0 < b.count == |b.hist|
            && (key.statusClass == "2xx" ==> b.errors == 0)
            && (key.statusClass == "err" ==> b.errors == b.count)
  {
    AlwaysInv(cs, events, i);
    ClassLaws(Get(cs[i].accepted, cs[i].run.emitted[k].sec, []), key);
  }
}
