/**
 The coordinator's per-run aggregator (internal/coordinator/aggregator): batches from the
 workers are merged per second, and each second is emitted once its grace period is over.
 */
module Aggregator {
  import opened Collections
  import opened Metrics
  import opened Sampler
  import LoadShape

  const LIVE_SAMPLE_CAP := 80
  const FINALIZE_GRACE_MS := 2000

  datatype State = State(
    buckets: map<int, Buckets>,
    vus: map<int, map<WorkerId, int>>,
    samples: map<int, seq<Result>>,
    lastEmitted: int, // 0 means none
    totalCount: int,
    lateBatches: nat)

  const INIT := State(map[], map[], map[], 0, 0, 0)

  /** One finalized second. */
  datatype Emission = Emission(sec: int, buckets: Buckets, activeVus: int, samples: seq<Result>)

  function SecOf(b: Batch): int {
    LoadShape.TruncDiv(b.bucketUnixMs, 1000)
  }

  predicate Late(s: State, sec: int) {
    s.lastEmitted != 0 && sec <= s.lastEmitted
  }

  function AbsorbAll(m: Buckets, agg: seq<AggSlice>): Buckets {
    if agg == [] then m
    else Absorb(AbsorbAll(m, agg[..|agg| - 1]), agg[|agg| - 1].key, agg[|agg| - 1].bucket)
  }

  function CountOf(agg: seq<AggSlice>): int {
    if agg == [] then 0 else CountOf(agg[..|agg| - 1]) + agg[|agg| - 1].bucket.count
  }

  function Get<V>(m: map<int, V>, sec: int, default: V): V {
    if sec in m then m[sec] else default
  }

  function Capped(cur: seq<Result>, more: seq<Result>): seq<Result> {
    if |cur| >= LIVE_SAMPLE_CAP then cur
    else cur + if |more| > LIVE_SAMPLE_CAP - |cur| then more[..LIVE_SAMPLE_CAP - |cur|] else more
  }

  function Ingest(s: State, b: Batch): State {
    var sec := SecOf(b);
    if Late(s, sec) then s.(lateBatches := s.lateBatches + 1)
    else
      s.(vus := s.vus[sec := Get(s.vus, sec, map[])[b.workerId := b.activeVus]],
         buckets := s.buckets[sec := AbsorbAll(Get(s.buckets, sec, map[]), b.agg)],
         samples := if b.samples == [] then s.samples
                    else s.samples[sec := Capped(Get(s.samples, sec, []), b.samples)],
         totalCount := s.totalCount + CountOf(b.agg))
  }

  /** Takes one second out of the pending ones, and emits it unless a later one already was. */
  ghost function EmitOne(s: State, sec: int): (State, seq<Emission>) {
    var rest := s.(buckets := s.buckets - {sec}, samples := s.samples - {sec}, vus := s.vus - {sec});
    if Late(s, sec) then (rest, [])
    else
      (rest.(lastEmitted := sec),
       [Emission(sec, Get(s.buckets, sec, map[]), MapSum(Get(s.vus, sec, map[])), Get(s.samples, sec, []))])
  }

  ghost function EmitAll(s: State, secs: seq<int>): (State, seq<Emission>) {
    if secs == [] then (s, [])
    else
      var (s1, out) := EmitAll(s, secs[..|secs| - 1]);
      var (s2, more) := EmitOne(s1, secs[|secs| - 1]);
      (s2, out + more)
  }

  lemma EmitAllOneMore(s: State, secs: seq<int>, i: nat)
    requires i < |secs|
    ensures var (s1, out) := EmitAll(s, secs[..i]);
            var (s2, more) := EmitOne(s1, secs[i]);
            EmitAll(s, secs[..i + 1]) == (s2, out + more)
  {
    assert secs[..i + 1][..i] == secs[..i];
  }

  ghost predicate Ascending(secs: seq<int>) {
    forall i, j :: 0 <= i < j < |secs| ==> secs[i] < secs[j]
  }

  /** The pending seconds up to the cutoff, in chronological order. */
  ghost predicate ReadyList(s: State, cutoff: int, secs: seq<int>) {
    Ascending(secs) && forall sec :: sec in secs <==> sec in s.buckets && sec <= cutoff
  }

  // ------------------------------------------------------- rows and live ticks

  datatype Rollup = Rollup(sec: int, key: Key, bucket: Bucket)

  datatype GroupTick = GroupTick(rps: real, errorRate: real)

  datatype LiveTick = LiveTick(
    sec: int,
    rps: real,
    errorRate: real,
    activeVus: int,
    hist: multiset<int>,
    groups: map<string, GroupTick>,
    samples: seq<Result>)

  /** The scenario transaction pseudo-group, which is kept out of every request-level total. */
  predicate IsTxn(group: string) {
    "txn:" <= group
  }

  lemma TxnIsPrefix(group: string)
    ensures IsTxn(group) <==> |group| >= 4 && group[0] == 't' && group[1] == 'x' && group[2] == 'n' && group[3] == ':'
  {
    if |group| >= 4 && group[0] == 't' && group[1] == 'x' && group[2] == 'n' && group[3] == ':' {
      assert group[..4] == "txn:";
    }
  }

  ghost function Requests(bk: Buckets): Buckets {
    map k | k in bk && !IsTxn(k.group) :: bk[k]
  }

  ghost function OfGroup(bk: Buckets, group: string): Buckets {
    map k | k in bk && k.group == group :: bk[k]
  }

  function Ratio(errors: int, count: int): real {
    if count > 0 then errors as real / count as real else 0.0
  }

  /** A group without requests shows its raw error count, as nothing divides it. */
  function Shown(total: Bucket): GroupTick {
    GroupTick(total.count as real,
              if total.count > 0 then total.errors as real / total.count as real else total.errors as real)
  }

  ghost function GroupTickOf(bk: Buckets, group: string): GroupTick {
    Shown(BucketSum(OfGroup(bk, group)))
  }

  ghost function TickOf(e: Emission): LiveTick {
    var total := BucketSum(Requests(e.buckets));
    LiveTick(e.sec, total.count as real, Ratio(total.errors, total.count), e.activeVus, total.hist,
             map group | group in Names(e.buckets) :: GroupTickOf(e.buckets, group),
             e.samples)
  }

  /** A batch belongs to the second its timestamp lies in. */
  lemma SecOfIs(b: Batch)
    requires b.bucketUnixMs >= 0
    ensures SecOf(b) * 1000 <= b.bucketUnixMs < (SecOf(b) + 1) * 1000
  {
  }

  lemma RatioIs(errors: int, count: int)
    ensures count > 0 ==> errors as real / count as real * count as real == errors as real
    ensures Ratio(errors, count) * count as real == if count > 0 then errors as real else 0.0
    ensures count <= 0 ==> Ratio(errors, count) == 0.0
  {
  }

  /** What a tick shows: its second, and the requests outside transactions with the share of errors among them. */
  lemma TickShows(e: Emission)
    ensures var t, total := TickOf(e), BucketSum(Requests(e.buckets));
            && t.sec == e.sec && t.activeVus == e.activeVus && t.samples == e.samples && t.hist == total.hist
            && t.rps == total.count as real
            && (total.count > 0 ==> t.errorRate * total.count as real == total.errors as real)
            && (total.count <= 0 ==> t.errorRate == 0.0)
  {
    RatioIs(BucketSum(Requests(e.buckets)).errors, BucketSum(Requests(e.buckets)).count);
  }

  /** And for each group that occurs, transactions included, the same of that group. */
  lemma TickShowsGroup(e: Emission, group: string)
    ensures group in TickOf(e).groups <==> exists k :: k in e.buckets && k.group == group
    ensures group in TickOf(e).groups ==>
              var shown, own := TickOf(e).groups[group], BucketSum(OfGroup(e.buckets, group));
              && shown.rps == own.count as real
              && (own.count > 0 ==> shown.errorRate * own.count as real == own.errors as real)
              && (own.count <= 0 ==> shown.errorRate == own.errors as real)
  {
    RatioIs(BucketSum(OfGroup(e.buckets, group)).errors, BucketSum(OfGroup(e.buckets, group)).count);
  }

  /** The stored rows' request-level total, transaction rows excluded. */
  function StoredTotal(rows: seq<Rollup>): Bucket {
    if rows == [] then ZERO
    else
      var last := rows[|rows| - 1];
      if IsTxn(last.key.group) then StoredTotal(rows[..|rows| - 1])
      else Plus(StoredTotal(rows[..|rows| - 1]), last.bucket)
  }

  /** `rows` are the entries of one second's buckets, each once, in some order. */
  ghost predicate RowsOf(rows: seq<Rollup>, sec: int, bk: Buckets) {
    && (forall i, j :: 0 <= i < j < |rows| ==> rows[i].key != rows[j].key)
    && (forall i :: 0 <= i < |rows| ==> rows[i].sec == sec && rows[i].key in bk && bk[rows[i].key] == rows[i].bucket)
    && (forall k :: k in bk ==> exists i :: 0 <= i < |rows| && rows[i].key == k)
  }

  lemma RowsOneMore(rows: seq<Rollup>, sec: int, bk: Buckets, k: Key, b: Bucket)
    requires RowsOf(rows, sec, bk) && k !in bk
    ensures RowsOf(rows + [Rollup(sec, k, b)], sec, bk[k := b])
  {
    var more, bk' := rows + [Rollup(sec, k, b)], bk[k := b];
    forall j | j in bk' ensures exists i :: 0 <= i < |more| && more[i].key == j {
      if j == k {
        assert more[|rows|].key == j;
      } else {
        var i :| 0 <= i < |rows| && rows[i].key == j;
        assert more[i].key == j;
      }
    }
  }

  /** Adding one entry to a second changes the totals it takes part in, by its bucket. */
  lemma RequestsOneMore(bk: Buckets, k: Key, b: Bucket)
    requires k !in bk
    ensures BucketSum(Requests(bk[k := b]))
         == if IsTxn(k.group) then BucketSum(Requests(bk)) else Plus(BucketSum(Requests(bk)), b)
  {
    if IsTxn(k.group) {
      assert Requests(bk[k := b]) == Requests(bk);
    } else {
      AbsorbNew(Requests(bk), k, b);
      assert Requests(bk[k := b]) == Requests(bk)[k := b];
    }
  }

  lemma GroupOneMore(bk: Buckets, k: Key, b: Bucket, group: string)
    requires k !in bk
    ensures BucketSum(OfGroup(bk[k := b], group))
         == if k.group == group then Plus(BucketSum(OfGroup(bk, group)), b) else BucketSum(OfGroup(bk, group))
  {
    if k.group == group {
      AbsorbNew(OfGroup(bk, group), k, b);
      assert OfGroup(bk[k := b], group) == OfGroup(bk, group)[k := b];
    } else {
      assert OfGroup(bk[k := b], group) == OfGroup(bk, group);
    }
  }

  lemma AbsorbNew(m: Buckets, k: Key, b: Bucket)
    requires k !in m
    ensures BucketSum(m[k := b]) == Plus(BucketSum(m), b)
  {
    BucketSumAbsorb(m, k, b);
    assert ZERO.hist + b.hist == b.hist;
    assert Absorb(m, k, b) == m[k := b];
  }

  // ---------------------------------------------------------------- the aggregator

  class RunAggregator {
    var buckets: map<int, Buckets>
    var vus: map<int, map<WorkerId, int>>
    var samples: map<int, seq<Result>>
    var lastEmitted: int
    var totalCount: int
    var lateBatches: nat

    ghost function Abs(): State
      reads this
    {
      State(buckets, vus, samples, lastEmitted, totalCount, lateBatches)
    }

    constructor ()
      ensures Abs() == INIT
    {
      buckets, vus, samples, lastEmitted, totalCount, lateBatches := map[], map[], map[], 0, 0, 0;
    }

    method MergeSlices(start: Buckets, agg: seq<AggSlice>) returns (bk: Buckets)
      modifies this`totalCount
      ensures bk == AbsorbAll(start, agg)
      ensures totalCount == old(totalCount) + CountOf(agg)
    {
      bk := start;
      var i := 0;
      while i < |agg|
        invariant 0 <= i <= |agg|
        invariant bk == AbsorbAll(start, agg[..i])
        invariant totalCount == old(totalCount) + CountOf(agg[..i])
      {
        var k, b := agg[i].key, agg[i].bucket;
        assert agg[..i + 1][..i] == agg[..i];
        var dst := if k in bk then bk[k] else ZERO;
        dst := dst.(count := dst.count + b.count, errors := dst.errors + b.errors);
        dst := dst.(sentBytes := dst.sentBytes + b.sentBytes, recvBytes := dst.recvBytes + b.recvBytes);
        dst := dst.(hist := dst.hist + b.hist);
        bk := bk[k := dst];
        totalCount := totalCount + b.count;
        i := i + 1;
      }
      assert agg[..i] == agg;
    }

    method IngestBatch(b: Batch)
      modifies this
      ensures Abs() == Ingest(old(Abs()), b)
    {
      var sec := LoadShape.TruncDiv(b.bucketUnixMs, 1000);
      if lastEmitted != 0 && sec <= lastEmitted {
        lateBatches := lateBatches + 1;
        return;
      }
      vus := vus[sec := Get(vus, sec, map[])[b.workerId := b.activeVus]];
      var bk := MergeSlices(Get(buckets, sec, map[]), b.agg);
      buckets := buckets[sec := bk];
      if |b.samples| > 0 {
        var cur := Get(samples, sec, []);
        if |cur| < LIVE_SAMPLE_CAP {
          var room := LIVE_SAMPLE_CAP - |cur|;
          cur := cur + if |b.samples| > room then b.samples[..room] else b.samples;
        }
        samples := samples[sec := cur];
      }
    }

    /** Finalizes every second whose grace is over at time nowMs: its rows and its live tick. */
    method FinalizeAt(nowMs: int) returns (ready: seq<int>, rows: seq<Rollup>, ticks: seq<LiveTick>, ghost out: seq<Emission>)
      modifies this
      ensures ReadyList(old(Abs()), (nowMs - FINALIZE_GRACE_MS) / 1000, ready)
      ensures forall sec :: sec in ready <==> sec in old(buckets) && sec * 1000 + 2000 <= nowMs
      ensures (Abs(), out) == EmitAll(old(Abs()), ready)
      ensures Shows(out, rows, ticks)
    {
      var cutoff := (nowMs - FINALIZE_GRACE_MS) / 1000;
      ready := ReadySeconds(buckets.Keys, cutoff);
      assert forall sec: int :: sec <= cutoff <==> sec * 1000 + 2000 <= nowMs;
      rows, ticks, out := [], [], [];
      var i := 0;
      while i < |ready|
        invariant 0 <= i <= |ready|
        invariant (Abs(), out) == EmitAll(old(Abs()), ready[..i])
        invariant Shows(out, rows, ticks)
      {
        EmitAllOneMore(old(Abs()), ready, i);
        var e, late := TakeSecond(ready[i]);
        if late {
          assert out + [] == out;
        } else {
          var more, tick := Collect(e);
          AppendSecond(rows, more, ticks, tick, out, e);
          rows, ticks, out := rows + more, ticks + [tick], out + [e];
        }
        i := i + 1;
      }
      assert ready[..i] == ready;
    }

    /** Removes a second from the pending ones and, unless it is already past, makes it the last emitted. */
    method TakeSecond(sec: int) returns (e: Emission, late: bool)
      modifies this
      ensures EmitOne(old(Abs()), sec) == (Abs(), if late then [] else [e])
    {
      var bk, secSamples := Get(buckets, sec, map[]), Get(samples, sec, []);
      var activeVus := SumVus(Get(vus, sec, map[]));
      buckets, samples, vus := buckets - {sec}, samples - {sec}, vus - {sec};
      e := Emission(sec, bk, activeVus, secSamples);
      late := lastEmitted != 0 && sec <= lastEmitted;
      if !late {
        lastEmitted := sec;
      }
    }
  }

  /** One second's rows, and the tick that aggregates its request groups. */
  method Collect(e: Emission) returns (rows: seq<Rollup>, tick: LiveTick)
    ensures RowsOf(rows, e.sec, e.buckets)
    ensures StoredTotal(rows) == BucketSum(Requests(e.buckets))
    ensures tick == TickOf(e)
  {
    var bk := e.buckets;
    var total;
    rows, total := CollectRows(e.sec, bk);
    RowsTotal(rows, e.sec, bk);
    var groups := CollectGroups(bk);
    tick := LiveTick(e.sec, total.count as real, Ratio(total.errors, total.count), e.activeVus, total.hist, groups, e.samples);
  }

  method CollectRows(sec: int, bk: Buckets) returns (rows: seq<Rollup>, total: Bucket)
    ensures RowsOf(rows, sec, bk) && total == StoredTotal(rows)
  {
    rows, total := [], ZERO;
    var rest := bk.Keys;
    assert bk - rest == map[];
    while rest != {}
      invariant rest <= bk.Keys
      invariant RowsOf(rows, sec, bk - rest)
      invariant total == StoredTotal(rows)
      decreases |rest|
    {
      var k := PickOne(rest);
      RowsOneMore(rows, sec, bk - rest, k, bk[k]);
      assert (bk - rest)[k := bk[k]] == bk - (rest - {k});
      StoredTotalAppend(rows, Rollup(sec, k, bk[k]));
      rest := rest - {k};
      rows := rows + [Rollup(sec, k, bk[k])];
      if !IsTxn(k.group) {
        total := Plus(total, bk[k]);
      }
    }
    assert bk - {} == bk;
  }

  lemma StoredTotalAppend(rows: seq<Rollup>, r: Rollup)
    ensures StoredTotal(rows + [r]) == if IsTxn(r.key.group) then StoredTotal(rows) else Plus(StoredTotal(rows), r.bucket)
  {
    assert (rows + [r])[..|rows|] == rows;
  }

  /** Summing rows one by one gives the total of the second they list. */
  lemma {:induction false} RowsTotal(rows: seq<Rollup>, sec: int, bk: Buckets)
    requires RowsOf(rows, sec, bk)
    ensures StoredTotal(rows) == BucketSum(Requests(bk))
    decreases |rows|
  {
    if rows == [] {
      assert Requests(bk) == map[];
    } else {
      var front, last := rows[..|rows| - 1], rows[|rows| - 1];
      var rest := bk - {last.key};
      assert RowsOf(front, sec, rest) by {
        forall k | k in rest ensures exists i :: 0 <= i < |front| && front[i].key == k {
          var i :| 0 <= i < |rows| && rows[i].key == k;
          assert front[i].key == k;
        }
      }
      RowsTotal(front, sec, rest);
      RequestsOneMore(rest, last.key, last.bucket);
      assert rest[last.key := last.bucket] == bk;
    }
  }

  function Names(bk: Buckets): set<string> {
    set k | k in bk :: k.group
  }

  /** `groups` holds the total of every group that occurs in `bk`. */
  ghost predicate GroupTotals(groups: map<string, Bucket>, bk: Buckets) {
    groups.Keys == Names(bk) && forall g :: g in groups ==> groups[g] == BucketSum(OfGroup(bk, g))
  }

  method SumGroups(bk: Buckets) returns (groups: map<string, Bucket>)
    ensures GroupTotals(groups, bk)
  {
    groups := map[];
    var rest := bk.Keys;
    assert bk - rest == map[];
    while rest != {}
      invariant rest <= bk.Keys && GroupTotals(groups, bk - rest)
      decreases |rest|
    {
      var k := PickOne(rest);
      GroupsOneMore(bk - rest, groups, k, bk[k]);
      assert (bk - rest)[k := bk[k]] == bk - (rest - {k});
      rest := rest - {k};
      groups := groups[k.group := Plus(if k.group in groups then groups[k.group] else ZERO, bk[k])];
    }
    assert bk - {} == bk;
  }

  /** The per-group breakdown, transactions included. */
  method CollectGroups(bk: Buckets) returns (shown: map<string, GroupTick>)
    ensures shown == map group | group in Names(bk) :: GroupTickOf(bk, group)
  {
    var groups := SumGroups(bk);
    shown := map g | g in groups :: Shown(groups[g]);
  }

  lemma GroupsOneMore(done: Buckets, groups: map<string, Bucket>, k: Key, b: Bucket)
    requires k !in done && GroupTotals(groups, done)
    ensures GroupTotals(groups[k.group := Plus(if k.group in groups then groups[k.group] else ZERO, b)], done[k := b])
  {
    var groups' := groups[k.group := Plus(if k.group in groups then groups[k.group] else ZERO, b)];
    assert k in done[k := b];
    assert Names(done[k := b]) == Names(done) + {k.group};
    forall g | g in groups' ensures groups'[g] == BucketSum(OfGroup(done[k := b], g)) {
      GroupOneMore(done, k, b, g);
      if g !in groups {
        assert OfGroup(done, g) == map[];
      }
    }
  }

  method SumVus(m: map<WorkerId, int>) returns (total: int)
    ensures total == MapSum(m)
  {
    total := 0;
    var rest := m;
    while rest != map[]
      invariant total + MapSum(rest) == MapSum(m)
      decreases |rest|
    {
      var w := PickOne(rest.Keys);
      MapSumRemove(rest, w);
      total := total + rest[w];
      rest := rest - {w};
    }
  }

  /** The due seconds in order, each put in its place as it is found; `finalize` sorts them afterwards. */
  method ReadySeconds(pending: set<int>, cutoff: int) returns (ready: seq<int>)
    ensures Ascending(ready) && forall sec :: sec in ready <==> sec in pending && sec <= cutoff
  {
    ready := [];
    var rest := pending;
    while rest != {}
      invariant Ascending(ready)
      invariant forall sec :: sec in ready <==> sec in pending && sec !in rest && sec <= cutoff
      invariant rest <= pending
      decreases |rest|
    {
      var sec := PickOne(rest);
      rest := rest - {sec};
      if sec <= cutoff {
        ready := InsertSorted(ready, sec);
      }
    }
  }

  method InsertSorted(secs: seq<int>, x: int) returns (r: seq<int>)
    requires Ascending(secs) && x !in secs
    ensures Ascending(r) && forall y :: y in r <==> y in secs || y == x
  {
    var i := 0;
    while i < |secs| && secs[i] < x
      invariant 0 <= i <= |secs|
      invariant forall k :: 0 <= k < i ==> secs[k] < x
    {
      i := i + 1;
    }
    r := secs[..i] + [x] + secs[i..];
    InsertedAt(secs, x, i);
  }

  lemma InsertedAt(secs: seq<int>, x: int, i: nat)
    requires Ascending(secs) && i <= |secs| && x !in secs
    requires (forall k :: 0 <= k < i ==> secs[k] < x) && (i < |secs| ==> x <= secs[i])
    ensures var r := secs[..i] + [x] + secs[i..];
            Ascending(r) && forall y :: y in r <==> y in secs || y == x
  {
    var l, h := secs[..i], secs[i..];
    assert secs == l + h;
    forall k | 0 <= k < |h| ensures x < h[k] {
      assert h[k] == secs[i + k] && secs[i + k] in secs;
    }
    var r := l + [x] + h;
    forall j, k | 0 <= j < k < |r| ensures r[j] < r[k] {
      assert r[j] == if j < i then secs[j] else if j == i then x else secs[j - 1];
      assert r[k] == if k < i then secs[k] else if k == i then x else secs[k - 1];
      assert k > i ==> secs[k - 1] == h[k - 1 - i];
    }
  }

  // --------------------------------------------------------- live and stored agree

  /** The request-level total of the live ticks. */
  ghost function LiveTotal(out: seq<Emission>): Bucket {
    if out == [] then ZERO
    else Plus(LiveTotal(out[..|out| - 1]), BucketSum(Requests(out[|out| - 1].buckets)))
  }

  ghost predicate Written(out: seq<Emission>, r: Rollup) {
    exists i :: 0 <= i < |out| && out[i].sec == r.sec && r.key in out[i].buckets && out[i].buckets[r.key] == r.bucket
  }

  lemma {:induction false} StoredTotalConcat(a: seq<Rollup>, b: seq<Rollup>)
    ensures StoredTotal(a + b) == Plus(StoredTotal(a), StoredTotal(b))
  {
    if b == [] {
      assert a + b == a;
      assert StoredTotal(a).hist + ZERO.hist == StoredTotal(a).hist;
    } else {
      var front, last := b[..|b| - 1], b[|b| - 1];
      assert (a + b)[..|a + b| - 1] == a + front;
      StoredTotalConcat(a, front);
      PlusAssociates(StoredTotal(a), StoredTotal(front), last.bucket);
    }
  }

  lemma RowsAreTheEntries(rows: seq<Rollup>, sec: int, bk: Buckets, r: Rollup)
    requires RowsOf(rows, sec, bk)
    ensures r in rows <==> r.sec == sec && r.key in bk && bk[r.key] == r.bucket
  {
    if r.sec == sec && r.key in bk && bk[r.key] == r.bucket {
      var i :| 0 <= i < |rows| && rows[i].key == r.key;
      assert rows[i] == r;
    }
  }

  lemma WrittenOneMore(out: seq<Emission>, e: Emission, r: Rollup)
    ensures Written(out + [e], r) <==>
              Written(out, r) || (r.sec == e.sec && r.key in e.buckets && e.buckets[r.key] == r.bucket)
  {
    var all := out + [e];
    assert all[|out|] == e && forall i :: 0 <= i < |out| ==> all[i] == out[i];
  }

  ghost predicate TicksOf(out: seq<Emission>, ticks: seq<LiveTick>) {
    |ticks| == |out| && forall i :: 0 <= i < |out| ==> ticks[i] == TickOf(out[i])
  }

  ghost predicate RowsFor(out: seq<Emission>, rows: seq<Rollup>) {
    StoredTotal(rows) == LiveTotal(out) && forall r :: r in rows <==> Written(out, r)
  }

  /** Stored rows and live ticks are two views of the same emitted seconds. */
  ghost predicate Shows(out: seq<Emission>, rows: seq<Rollup>, ticks: seq<LiveTick>) {
    TicksOf(out, ticks) && RowsFor(out, rows)
  }

  lemma AppendSecond(rows: seq<Rollup>, more: seq<Rollup>, ticks: seq<LiveTick>, tick: LiveTick, out: seq<Emission>, e: Emission)
    requires Shows(out, rows, ticks) && tick == TickOf(e)
    requires RowsOf(more, e.sec, e.buckets) && StoredTotal(more) == BucketSum(Requests(e.buckets))
    ensures Shows(out + [e], rows + more, ticks + [tick])
  {
    AppendTicks(ticks, tick, out, e);
    AppendRows(rows, more, out, e);
  }

  lemma AppendTicks(ticks: seq<LiveTick>, tick: LiveTick, out: seq<Emission>, e: Emission)
    requires TicksOf(out, ticks) && tick == TickOf(e)
    ensures TicksOf(out + [e], ticks + [tick])
  {
  }

  lemma AppendRows(rows: seq<Rollup>, more: seq<Rollup>, out: seq<Emission>, e: Emission)
    requires RowsFor(out, rows)
    requires RowsOf(more, e.sec, e.buckets) && StoredTotal(more) == BucketSum(Requests(e.buckets))
    ensures RowsFor(out + [e], rows + more)
  {
    AppendTotals(rows, more, out, e);
    forall r ensures r in rows + more <==> Written(out + [e], r) {
      AppendWritten(rows, more, out, e, r);
    }
  }

  lemma AppendTotals(rows: seq<Rollup>, more: seq<Rollup>, out: seq<Emission>, e: Emission)
    requires StoredTotal(rows) == LiveTotal(out) && StoredTotal(more) == BucketSum(Requests(e.buckets))
    ensures StoredTotal(rows + more) == LiveTotal(out + [e])
  {
    StoredTotalConcat(rows, more);
    assert (out + [e])[..|out|] == out;
  }

  lemma AppendWritten(rows: seq<Rollup>, more: seq<Rollup>, out: seq<Emission>, e: Emission, r: Rollup)
    requires (r in rows <==> Written(out, r)) && RowsOf(more, e.sec, e.buckets)
    ensures r in rows + more <==> Written(out + [e], r)
  {
    WrittenOneMore(out, e, r);
    RowsAreTheEntries(more, e.sec, e.buckets, r);
  }
}
