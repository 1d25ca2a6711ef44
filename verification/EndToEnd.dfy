/**
 A whole run, from the workers' results to what the watchers and the readers of the store see:
 the results about single finalizations, joined over every finalization of a run.
 */
module EndToEnd {
  import opened Collections
  import opened Aggregator
  import opened Series
  import opened Breakers
  import opened Alert
  import Metrics
  import AggregatorLaws
  import Pipeline

  // ------------------------------------------------------- live against stored

  /** The seconds that step i of a run emitted. */
  ghost function EmittedBy(runs: seq<AggregatorLaws.Run>, i: nat): seq<Emission>
    requires i + 1 < |runs| && |runs[i].emitted| <= |runs[i + 1].emitted|
  {
    runs[i + 1].emitted[|runs[i].emitted|..]
  }

  lemma EmissionsGrow(runs: seq<AggregatorLaws.Run>, events: seq<AggregatorLaws.Event>, i: nat)
    requires AggregatorLaws.Trace(runs, events) && i < |events|
    ensures runs[i].emitted <= runs[i + 1].emitted
  {
    assert runs[i + 1] == AggregatorLaws.Step(runs[i], events[i]);
  }

  /** Each step wrote the rows and sent the ticks that finalization promises for its seconds. */
  ghost predicate Published(runs: seq<AggregatorLaws.Run>, rows: seq<seq<Rollup>>, ticks: seq<seq<LiveTick>>) {
    && |rows| == |ticks| == |runs| - 1
    && forall i {:trigger rows[i]} :: 0 <= i < |rows| ==>
         |runs[i].emitted| <= |runs[i + 1].emitted| && Shows(EmittedBy(runs, i), rows[i], ticks[i])
  }

  lemma {:induction false} PublishedSoFar(runs: seq<AggregatorLaws.Run>, events: seq<AggregatorLaws.Event>,
                                          rows: seq<seq<Rollup>>, ticks: seq<seq<LiveTick>>, i: nat)
    requires AggregatorLaws.Trace(runs, events) && Published(runs, rows, ticks) && i < |runs|
    ensures Shows(runs[i].emitted, Flat(rows[..i]), Flat(ticks[..i]))
  {
    if i == 0 {
      assert rows[..0] == [] && ticks[..0] == [];
    } else {
      PublishedSoFar(runs, events, rows, ticks, i - 1);
      PublishedNext(runs, events, rows, ticks, i - 1);
    }
  }

  lemma PublishedNext(runs: seq<AggregatorLaws.Run>, events: seq<AggregatorLaws.Event>,
                      rows: seq<seq<Rollup>>, ticks: seq<seq<LiveTick>>, i: nat)
    requires AggregatorLaws.Trace(runs, events) && Published(runs, rows, ticks) && i < |events|
    requires Shows(runs[i].emitted, Flat(rows[..i]), Flat(ticks[..i]))
    ensures Shows(runs[i + 1].emitted, Flat(rows[..i + 1]), Flat(ticks[..i + 1]))
  {
    EmissionsGrow(runs, events, i);
    FlatNext(rows, i);
    FlatNext(ticks, i);
    assert Shows(EmittedBy(runs, i), rows[i], ticks[i]);
    assert runs[i].emitted + EmittedBy(runs, i) == runs[i + 1].emitted;
    ShowsJoins(runs[i].emitted, Flat(rows[..i]), Flat(ticks[..i]), EmittedBy(runs, i), rows[i], ticks[i]);
  }

  /**
   Over a whole run, whatever arrived when and was finalized when: the requests of all live
   ticks, the summary of all stored rows and the combined series at any resolution agree.
   */
  lemma WholeRunAgrees(runs: seq<AggregatorLaws.Run>, events: seq<AggregatorLaws.Event>,
                       rows: seq<seq<Rollup>>, ticks: seq<seq<LiveTick>>, selected: seq<Rollup>, resSeconds: int)
    requires AggregatorLaws.Trace(runs, events) && Published(runs, rows, ticks)
    ensures var stored, w := StoredTotal(Flat(rows)).count as real, Width(resSeconds);
            && LiveCount(Flat(ticks)) == stored
            && (multiset(selected) == multiset(NotTxn(Flat(rows))) ==>
                  SeriesCount(Points(Groups(selected, ByWidth(w)), w), w) == stored)
  {
    var n := |events|;
    PublishedSoFar(runs, events, rows, ticks, n);
    assert rows[..n] == rows && ticks[..n] == ticks;
    LiveCountIsLiveTotal(runs[n].emitted, Flat(ticks));
    if multiset(selected) == multiset(NotTxn(Flat(rows))) {
      LiveAndStoredAgree(runs[n].emitted, Flat(rows), Flat(ticks), selected, resSeconds);
    }
  }

  // ---------------------------------------------------------- alert before breaker

  ghost function Ticks(out: seq<Emission>): seq<LiveTick> {
    seq(|out|, i requires 0 <= i < |out| => TickOf(out[i]))
  }

  lemma ClusterEmissionsGrow(cs: seq<Pipeline.Cluster>, events: seq<Pipeline.Event>, i: nat)
    requires Pipeline.Trace(cs, events) && i < |events|
    ensures cs[i].run.emitted <= cs[i + 1].run.emitted
  {
    assert cs[i + 1] == Pipeline.Step(cs[i], events[i]);
  }

  /** The batches of ticks that the steps of a cluster send out, one per step. */
  ghost predicate TickBatches(cs: seq<Pipeline.Cluster>, batches: seq<seq<LiveTick>>) {
    && |batches| == |cs| - 1
    && forall i {:trigger batches[i]} :: 0 <= i < |batches| ==>
         && |cs[i].run.emitted| <= |cs[i + 1].run.emitted|
         && batches[i] == Ticks(cs[i + 1].run.emitted[|cs[i].run.emitted|..])
  }

  lemma {:induction false} TicksSoFar(cs: seq<Pipeline.Cluster>, events: seq<Pipeline.Event>, batches: seq<seq<LiveTick>>, i: nat)
    requires Pipeline.Trace(cs, events) && TickBatches(cs, batches) && i < |cs|
    ensures Flat(batches[..i]) == Ticks(cs[i].run.emitted)
  {
    if i == 0 {
      assert batches[..0] == [];
    } else {
      TicksSoFar(cs, events, batches, i - 1);
      ClusterEmissionsGrow(cs, events, i - 1);
      FlatNext(batches, i - 1);
      var before := cs[i - 1].run.emitted;
      assert batches[i - 1] == Ticks(cs[i].run.emitted[|before|..]);
      TicksSplit(before, cs[i].run.emitted);
    }
  }

  lemma TicksSplit(before: seq<Emission>, all: seq<Emission>)
    requires before <= all
    ensures Ticks(all) == Ticks(before) + Ticks(all[|before|..])
  {
  }

  /** Every tick of every run reports whole numbers of requests and errors. */
  lemma TicksAreFaithful(cs: seq<Pipeline.Cluster>, events: seq<Pipeline.Event>, i: nat)
    requires Pipeline.Trace(cs, events) && i < |cs|
    ensures AllFaithful(Ticks(cs[i].run.emitted))
  {
    var out := cs[i].run.emitted;
    forall k | 0 <= k < |out| ensures Faithful(TickOf(out[k])) {
      forall key | key in out[k].buckets ensures Metrics.Bounded(out[k].buckets[key]) {
        Pipeline.EmittedBucketsAreLawful(cs, events, i, k, key);
      }
      EmittedTicksAreFaithful(out[k]);
    }
  }

  /**
   From the workers' results to the warning: in any run of the whole pipeline, with equal windows
   and the alert at least as sensitive, when the breaker trips on the error rate the alert has
   fired on the ticks sent by then.
   */
  lemma RunWarnsNoLaterThanTrip(cs: seq<Pipeline.Cluster>, events: seq<Pipeline.Event>, batches: seq<seq<LiveTick>>,
                                alert: Config, s: Settings, k: nat)
    requires Pipeline.Trace(cs, events) && TickBatches(cs, batches) && k < |batches|
    requires Enabled(alert) && Enabled(s.cfg) && s.armed
    requires WindowOf(alert) == WindowOf(s.cfg) && Sensitive(alert, s.cfg)
    requires TripAt(s, batches, k).Some? && TripAt(s, batches, k).value.ErrorRate?
    ensures AfterTicks(alert, Flat(batches[..k + 1])).fired
  {
    TicksSoFar(cs, events, batches, k + 1);
    TicksAreFaithful(cs, events, k + 1);
    WarnsNoLaterThanTrip(alert, s, batches, k);
  }
}
