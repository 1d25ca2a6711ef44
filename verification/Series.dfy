/**
 Reading stored rollups back (internal/store/clickhouse): the one-pass time series, the run
 summary, and their agreement with what was shown live.
 */
module Series {
  import opened Collections
  import opened Metrics
  import opened Aggregator
  import LoadShape

  datatype SeriesPoint = SeriesPoint(ts: int, rps: real, errorRate: real, hist: multiset<int>)

  function Width(resSeconds: int): (w: int)
    ensures w > 0 && (resSeconds > 0 ==> w == resSeconds) && (resSeconds <= 0 ==> w == 1)
  {
    if resSeconds <= 0 then 1 else resSeconds
  }

  /** The start of the interval a second falls into. */
  function BucketStart(sec: int, width: int): int
    requires width > 0
  {
    sec / width * width
  }

  /** A way of assigning seconds to buckets; the query's is truncation to the width. */
  type Bucketing = int -> int

  function ByWidth(width: int): Bucketing
    requires width > 0
  {
    sec => BucketStart(sec, width)
  }

  ghost predicate Ordered(rows: seq<Rollup>, at: Bucketing) {
    forall i, j :: 0 <= i < j < |rows| ==> at(rows[i].sec) <= at(rows[j].sec)
  }

  /** All the rows of a list added up. */
  function Total(rows: seq<Rollup>): Bucket {
    if rows == [] then ZERO else Plus(Total(rows[..|rows| - 1]), rows[|rows| - 1].bucket)
  }

  function InBucket(rows: seq<Rollup>, ts: int, at: Bucketing): seq<Rollup> {
    if rows == [] then []
    else
      var last := rows[|rows| - 1];
      InBucket(rows[..|rows| - 1], ts, at) + if at(last.sec) == ts then [last] else []
  }

  function Point(ts: int, total: Bucket, width: int): SeriesPoint
    requires width > 0
  {
    SeriesPoint(ts, total.count as real / width as real, Ratio(total.errors, total.count), total.hist)
  }

  /** A bucket is the stretch of `width` seconds, counted from 0, that the second lies in. */
  lemma BucketStartIs(sec: int, width: int, start: int)
    requires width > 0
    ensures start == BucketStart(sec, width) <==> start % width == 0 && start <= sec < start + width
  {
    var q, r := sec / width, sec % width;
    assert sec == width * q + r && BucketStart(sec, width) == q * width == width * q;
    LoadShape.RemainderIsUnique(width * q, width, q, 0);
    if start % width == 0 && start <= sec < start + width {
      var p := start / width;
      assert start == width * p;
      assert width * (q - p) == width * q - width * p;
      LoadShape.MultiplesApart(width, q - p);
    }
  }

  /** What a point shows, multiplied out: requests per second, and the share of errors among them. */
  lemma PointIs(ts: int, total: Bucket, width: int)
    requires width > 0
    ensures var p := Point(ts, total, width);
            && p.ts == ts && p.hist == total.hist && p.rps * width as real == total.count as real
            && (total.count > 0 ==> p.errorRate * total.count as real == total.errors as real)
            && (total.count <= 0 ==> p.errorRate == 0.0)
  {
    assert total.count as real / width as real * width as real == total.count as real;
    if total.count > 0 {
      assert total.errors as real / total.count as real * total.count as real == total.errors as real;
    }
  }

  // ----------------------------------------------------------------- one pass

  datatype Group = Group(ts: int, total: Bucket)

  /** What a single pass that starts a new group at every change of bucket collects. */
  function Groups(rows: seq<Rollup>, at: Bucketing): seq<Group> {
    if rows == [] then []
    else
      var gs, last := Groups(rows[..|rows| - 1], at), rows[|rows| - 1];
      var ts := at(last.sec);
      if gs != [] && gs[|gs| - 1].ts == ts
      then gs[..|gs| - 1] + [Group(ts, Plus(gs[|gs| - 1].total, last.bucket))]
      else gs + [Group(ts, Plus(ZERO, last.bucket))]
  }

  function Points(gs: seq<Group>, width: int): seq<SeriesPoint>
    requires width > 0
  {
    seq(|gs|, i requires 0 <= i < |gs| => Point(gs[i].ts, gs[i].total, width))
  }

  /** The rows are those the query selected, in the order it asked for. */
  method QuerySeries(rows: seq<Rollup>, resSeconds: int) returns (out: seq<SeriesPoint>)
    ensures out == Points(Groups(rows, ByWidth(Width(resSeconds))), Width(resSeconds))
  {
    var width := Width(resSeconds);
    out := [];
    var curBucket, have, sum := 0, false, ZERO;
    ghost var done: seq<Group> := [];
    var i := 0;
    while i < |rows|
      invariant 0 <= i <= |rows|
      invariant out == Points(done, width)
      invariant Groups(rows[..i], ByWidth(width)) == if have then done + [Group(curBucket, sum)] else []
      invariant !have ==> done == []
    {
      assert rows[..i + 1][..i] == rows[..i];
      var bucket := BucketStart(rows[i].sec, width);
      if !have || bucket != curBucket {
        if have {
          PointsAppend(done, Group(curBucket, sum), width);
          out := out + [Point(curBucket, sum, width)];
          done := done + [Group(curBucket, sum)];
        }
        curBucket, have, sum := bucket, true, ZERO;
      }
      sum := Plus(sum, rows[i].bucket);
      i := i + 1;
    }
    assert rows[..i] == rows;
    if have {
      PointsAppend(done, Group(curBucket, sum), width);
      out := out + [Point(curBucket, sum, width)];
    }
  }

  lemma PointsAppend(gs: seq<Group>, g: Group, width: int)
    requires width > 0
    ensures Points(gs + [g], width) == Points(gs, width) + [Point(g.ts, g.total, width)]
  {
  }

  // ------------------------------------------------------------ a true group-by

  ghost predicate Increasing(gs: seq<Group>) {
    forall i, j :: 0 <= i < j < |gs| ==> gs[i].ts < gs[j].ts
  }

  /** `gs` treats bucket ts as a GROUP BY does: all its rows in one group, none if it has none. */
  ghost predicate Right(gs: seq<Group>, rows: seq<Rollup>, at: Bucketing, ts: int) {
    if InBucket(rows, ts, at) == [] then forall g :: g in gs ==> g.ts != ts
    else Group(ts, Total(InBucket(rows, ts, at))) in gs
  }

  ghost predicate GroupBy(gs: seq<Group>, rows: seq<Rollup>, at: Bucketing) {
    Increasing(gs) && forall ts :: Right(gs, rows, at, ts)
  }

  lemma InBucketStep(rows: seq<Rollup>, ts: int, at: Bucketing)
    requires rows != []
    ensures var front, last := rows[..|rows| - 1], rows[|rows| - 1];
            if at(last.sec) == ts
            then InBucket(rows, ts, at) == InBucket(front, ts, at) + [last]
                 && Total(InBucket(rows, ts, at)) == Plus(Total(InBucket(front, ts, at)), last.bucket)
            else InBucket(rows, ts, at) == InBucket(front, ts, at)
  {
    var front, last := rows[..|rows| - 1], rows[|rows| - 1];
    if at(last.sec) == ts {
      assert (InBucket(front, ts, at) + [last])[..|InBucket(front, ts, at)|] == InBucket(front, ts, at);
    }
  }

  /** In increasing groups a bucket occurs once, so what is in the last group is all there is. */
  lemma OnlyOne(gs: seq<Group>, g: Group)
    requires Increasing(gs) && gs != [] && g in gs && g.ts == gs[|gs| - 1].ts
    ensures g == gs[|gs| - 1]
  {
  }

  /** The last row joins the last group. */
  lemma JoinGroup(gs: seq<Group>, rows: seq<Rollup>, at: Bucketing, ts: int)
    requires rows != [] && gs != [] && Increasing(gs) && gs[|gs| - 1].ts == at(rows[|rows| - 1].sec)
    requires Right(gs, rows[..|rows| - 1], at, ts)
    ensures var last := rows[|rows| - 1];
            Right(gs[..|gs| - 1] + [Group(at(last.sec), Plus(gs[|gs| - 1].total, last.bucket))], rows, at, ts)
  {
    var n, last, front := |gs| - 1, rows[|rows| - 1], rows[..|rows| - 1];
    var gs' := gs[..n] + [Group(at(last.sec), Plus(gs[n].total, last.bucket))];
    InBucketStep(rows, ts, at);
    if ts == at(last.sec) {
      assert gs[n] in gs;
      OnlyOne(gs, Group(ts, Total(InBucket(front, ts, at))));
      assert gs'[n] in gs';
    } else {
      assert forall g: Group :: g.ts == ts ==> (g in gs <==> g in gs') by {
        assert gs == gs[..n] + [gs[n]];
      }
    }
  }

  /** The last row opens a group of its own. */
  lemma OpenGroup(gs: seq<Group>, rows: seq<Rollup>, at: Bucketing, ts: int)
    requires rows != [] && forall g :: g in gs ==> g.ts < at(rows[|rows| - 1].sec)
    requires Right(gs, rows[..|rows| - 1], at, ts)
    ensures var last := rows[|rows| - 1];
            Right(gs + [Group(at(last.sec), Plus(ZERO, last.bucket))], rows, at, ts)
  {
    var last, front := rows[|rows| - 1], rows[..|rows| - 1];
    var gs' := gs + [Group(at(last.sec), Plus(ZERO, last.bucket))];
    InBucketStep(rows, ts, at);
    if ts == at(last.sec) {
      assert InBucket(front, ts, at) == [];
      assert gs'[|gs|] in gs';
    }
  }

  lemma JoinGroups(gs: seq<Group>, rows: seq<Rollup>, at: Bucketing)
    requires rows != [] && gs != [] && gs[|gs| - 1].ts == at(rows[|rows| - 1].sec)
    requires GroupBy(gs, rows[..|rows| - 1], at)
    ensures var last := rows[|rows| - 1];
            GroupBy(gs[..|gs| - 1] + [Group(at(last.sec), Plus(gs[|gs| - 1].total, last.bucket))], rows, at)
  {
    var last := rows[|rows| - 1];
    var gs' := gs[..|gs| - 1] + [Group(at(last.sec), Plus(gs[|gs| - 1].total, last.bucket))];
    forall ts ensures Right(gs', rows, at, ts) {
      assert Right(gs, rows[..|rows| - 1], at, ts);
      JoinGroup(gs, rows, at, ts);
    }
  }

  lemma OpenGroups(gs: seq<Group>, rows: seq<Rollup>, at: Bucketing)
    requires rows != [] && GroupBy(gs, rows[..|rows| - 1], at)
    requires gs != [] ==> gs[|gs| - 1].ts < at(rows[|rows| - 1].sec)
    ensures var last := rows[|rows| - 1];
            GroupBy(gs + [Group(at(last.sec), Plus(ZERO, last.bucket))], rows, at)
  {
    var last := rows[|rows| - 1];
    var gs' := gs + [Group(at(last.sec), Plus(ZERO, last.bucket))];
    forall g | g in gs ensures g.ts < at(last.sec) {
      var i :| 0 <= i < |gs| && gs[i] == g;
      assert i < |gs| - 1 ==> gs[i].ts < gs[|gs| - 1].ts;
    }
    forall ts ensures Right(gs', rows, at, ts) {
      assert Right(gs, rows[..|rows| - 1], at, ts);
      OpenGroup(gs, rows, at, ts);
    }
  }

  lemma {:induction false} GroupsEndAtLastRow(rows: seq<Rollup>, at: Bucketing)
    requires rows != []
    ensures Groups(rows, at) != []
    ensures Groups(rows, at)[|Groups(rows, at)| - 1].ts == at(rows[|rows| - 1].sec)
  {
  }

  /** Over rows in bucket order, the single pass is a true group-by, in increasing bucket order. */
  lemma {:induction false} OnePassIsGroupBy(rows: seq<Rollup>, at: Bucketing)
    requires Ordered(rows, at)
    ensures GroupBy(Groups(rows, at), rows, at)
    decreases |rows|
  {
    if rows != [] {
      var front, last := rows[..|rows| - 1], rows[|rows| - 1];
      var gs := Groups(front, at);
      OnePassIsGroupBy(front, at);
      if front != [] {
        GroupsEndAtLastRow(front, at);
      }
      if gs != [] && gs[|gs| - 1].ts == at(last.sec) {
        JoinGroups(gs, rows, at);
      } else {
        OpenGroups(gs, rows, at);
      }
    }
  }

  // --------------------------------------------------------------------- totals

  /** Requests shown by a series: each point's rate times the bucket width. */
  ghost function SeriesCount(points: seq<SeriesPoint>, width: int): real {
    if points == [] then 0.0
    else SeriesCount(points[..|points| - 1], width) + points[|points| - 1].rps * width as real
  }

  ghost function GroupsCount(gs: seq<Group>): int {
    if gs == [] then 0 else GroupsCount(gs[..|gs| - 1]) + gs[|gs| - 1].total.count
  }

  lemma GroupsCountSnoc(gs: seq<Group>, g: Group)
    ensures GroupsCount(gs + [g]) == GroupsCount(gs) + g.total.count
  {
    assert (gs + [g])[..|gs|] == gs;
  }

  lemma {:induction false} GroupsConserve(rows: seq<Rollup>, at: Bucketing)
    ensures GroupsCount(Groups(rows, at)) == Total(rows).count
  {
    if rows != [] {
      var front, last := rows[..|rows| - 1], rows[|rows| - 1];
      GroupsConserve(front, at);
      var gs, ts := Groups(front, at), at(last.sec);
      if gs != [] && gs[|gs| - 1].ts == ts {
        GroupsCountSnoc(gs[..|gs| - 1], Group(ts, Plus(gs[|gs| - 1].total, last.bucket)));
      } else {
        GroupsCountSnoc(gs, Group(ts, Plus(ZERO, last.bucket)));
      }
    }
  }

  lemma {:induction false} SeriesCountIsGroupsCount(gs: seq<Group>, width: int)
    requires width > 0
    ensures SeriesCount(Points(gs, width), width) == GroupsCount(gs) as real
  {
    if gs != [] {
      var front := gs[..|gs| - 1];
      SeriesCountIsGroupsCount(front, width);
      assert Points(gs, width)[..|gs| - 1] == Points(front, width);
      var n := gs[|gs| - 1].total.count as real;
      assert n / width as real * width as real == n;
    }
  }

  /** Whatever the resolution, a series accounts for exactly the requests of its rows. */
  lemma SeriesTotalIgnoresResolution(rows: seq<Rollup>, resSeconds: int)
    ensures var w := Width(resSeconds);
            SeriesCount(Points(Groups(rows, ByWidth(w)), w), w) == Total(rows).count as real
  {
    var w := Width(resSeconds);
    GroupsConserve(rows, ByWidth(w));
    SeriesCountIsGroupsCount(Groups(rows, ByWidth(w)), w);
  }

  /** The combined view's WHERE clause: every group but the transaction pseudo-groups. */
  function NotTxn(rows: seq<Rollup>): seq<Rollup> {
    if rows == [] then []
    else
      var last := rows[|rows| - 1];
      NotTxn(rows[..|rows| - 1]) + if IsTxn(last.key.group) then [] else [last]
  }

  lemma {:induction false} SummaryIsTotalOfSelection(rows: seq<Rollup>)
    ensures StoredTotal(rows) == Total(NotTxn(rows))
  {
    if rows != [] {
      var front, last := rows[..|rows| - 1], rows[|rows| - 1];
      SummaryIsTotalOfSelection(front);
      if IsTxn(last.key.group) {
        assert NotTxn(rows) == NotTxn(front);
      } else {
        assert (NotTxn(front) + [last])[..|NotTxn(front)|] == NotTxn(front);
      }
    }
  }

  lemma {:induction false} TotalConcat(a: seq<Rollup>, b: seq<Rollup>)
    ensures Total(a + b) == Plus(Total(a), Total(b))
  {
    if b == [] {
      assert a + b == a;
      assert Total(a).hist + ZERO.hist == Total(a).hist;
    } else {
      assert (a + b)[..|a + b| - 1] == a + b[..|b| - 1];
      TotalConcat(a, b[..|b| - 1]);
      PlusAssociates(Total(a), Total(b[..|b| - 1]), b[|b| - 1].bucket);
    }
  }

  lemma TotalLater(l: seq<Rollup>, x: Rollup, r: seq<Rollup>)
    ensures Total(l + [x] + r) == Plus(Total(l + r), x.bucket)
  {
    TotalConcat(l + [x], r);
    TotalConcat(l, r);
    assert (l + [x])[..|l|] == l;
    PlusAssociates(Total(l), x.bucket, Total(r));
    PlusAssociates(Total(l), Total(r), x.bucket);
    assert x.bucket.hist + Total(r).hist == Total(r).hist + x.bucket.hist;
  }

  lemma {:induction false} TotalIgnoresOrder(a: seq<Rollup>, b: seq<Rollup>)
    requires multiset(a) == multiset(b)
    ensures Total(a) == Total(b)
    decreases |a|
  {
    if a == [] {
      assert |multiset(b)| == 0;
    } else {
      var j := TakeOut(a, b);
      TotalIgnoresOrder(a[..|a| - 1], b[..j] + b[j + 1..]);
      TotalLater(b[..j], b[j], b[j + 1..]);
    }
  }

  // ---------------------------------------------------------- live against stored

  ghost function LiveCount(ticks: seq<LiveTick>): real {
    if ticks == [] then 0.0 else LiveCount(ticks[..|ticks| - 1]) + ticks[|ticks| - 1].rps
  }

  lemma {:induction false} LiveCountIsLiveTotal(out: seq<Emission>, ticks: seq<LiveTick>)
    requires |ticks| == |out| && forall i :: 0 <= i < |out| ==> ticks[i] == TickOf(out[i])
    ensures LiveCount(ticks) == LiveTotal(out).count as real
  {
    if out != [] {
      LiveCountIsLiveTotal(out[..|out| - 1], ticks[..|out| - 1]);
    }
  }

  /**
   Live and stored views agree: the requests shown by the live ticks, the summary of the
   stored rows, and the combined time series at any resolution are one and the same number.
   `selected` is any result of the series query: the non-transaction rows in whatever order.
   */
  lemma LiveAndStoredAgree(out: seq<Emission>, rows: seq<Rollup>, ticks: seq<LiveTick>, selected: seq<Rollup>, resSeconds: int)
    requires Shows(out, rows, ticks)
    requires multiset(selected) == multiset(NotTxn(rows))
    ensures LiveCount(ticks) == StoredTotal(rows).count as real
    ensures var w := Width(resSeconds);
            SeriesCount(Points(Groups(selected, ByWidth(w)), w), w) == StoredTotal(rows).count as real
  {
    LiveCountIsLiveTotal(out, ticks);
    SummaryIsTotalOfSelection(rows);
    TotalIgnoresOrder(selected, NotTxn(rows));
    SeriesTotalIgnoresResolution(selected, resSeconds);
  }

  lemma {:induction false} LiveTotalConcat(a: seq<Emission>, b: seq<Emission>)
    ensures LiveTotal(a + b) == Plus(LiveTotal(a), LiveTotal(b))
  {
    if b == [] {
      assert a + b == a;
      assert LiveTotal(a).hist + ZERO.hist == LiveTotal(a).hist;
    } else {
      assert (a + b)[..|a + b| - 1] == a + b[..|b| - 1];
      LiveTotalConcat(a, b[..|b| - 1]);
      PlusAssociates(LiveTotal(a), LiveTotal(b[..|b| - 1]), BucketSum(Requests(b[|b| - 1].buckets)));
    }
  }

  lemma WrittenConcat(a: seq<Emission>, b: seq<Emission>, r: Rollup)
    ensures Written(a + b, r) <==> Written(a, r) || Written(b, r)
  {
    var all := a + b;
    assert forall i :: 0 <= i < |a| ==> all[i] == a[i];
    assert forall i :: 0 <= i < |b| ==> all[|a| + i] == b[i];
    assert forall i :: |a| <= i < |all| ==> all[i] == b[i - |a|];
  }

  lemma RowsJoin(out1: seq<Emission>, rows1: seq<Rollup>, out2: seq<Emission>, rows2: seq<Rollup>)
    requires RowsFor(out1, rows1) && RowsFor(out2, rows2)
    ensures RowsFor(out1 + out2, rows1 + rows2)
  {
    StoredTotalConcat(rows1, rows2);
    LiveTotalConcat(out1, out2);
    forall r ensures r in rows1 + rows2 <==> Written(out1 + out2, r) {
      WrittenConcat(out1, out2, r);
    }
  }

  /** What holds of each finalization's output holds of a run's output as a whole. */
  lemma ShowsJoins(out1: seq<Emission>, rows1: seq<Rollup>, ticks1: seq<LiveTick>,
                   out2: seq<Emission>, rows2: seq<Rollup>, ticks2: seq<LiveTick>)
    requires Shows(out1, rows1, ticks1) && Shows(out2, rows2, ticks2)
    ensures Shows(out1 + out2, rows1 + rows2, ticks1 + ticks2)
  {
    RowsJoin(out1, rows1, out2, rows2);
    assert TicksOf(out1 + out2, ticks1 + ticks2);
  }
}
