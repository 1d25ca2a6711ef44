/** A worker's sampler (internal/worker/sampler): one recorder per flush window, plus raw samples. */
module Sampler {
  import opened Collections
  import opened Metrics

  const ERR_SAMPLE_CAP := 40
  const OK_SAMPLE_CAP := 20

  datatype AggSlice = AggSlice(key: Key, bucket: Bucket)

  /** What a worker sends each second; the histogram travels as the multiset it stands for. */
  datatype Batch = Batch(
    workerId: WorkerId,
    bucketUnixMs: int,
    activeVus: int,
    agg: seq<AggSlice>,
    samples: seq<Result>)

  /** `agg` lists the entries of `m`, each once, in some order. */
  ghost predicate Lists(agg: seq<AggSlice>, m: Buckets) {
    && (forall i, j :: 0 <= i < j < |agg| ==> agg[i].key != agg[j].key)
    && (forall i :: 0 <= i < |agg| ==> agg[i].key in m && m[agg[i].key] == agg[i].bucket)
    && (forall k :: k in m ==> exists i :: 0 <= i < |agg| && agg[i].key == k)
  }

  // ----------------------------------------------------------------- raw samples

  function Cap(ok: bool): nat {
    if ok then OK_SAMPLE_CAP else ERR_SAMPLE_CAP
  }

  /** The successes, or the failures, in order. */
  function OfKind(rs: seq<Result>, ok: bool): seq<Result> {
    if rs == [] then []
    else OfKind(rs[..|rs| - 1], ok) + if rs[|rs| - 1].ok == ok then [rs[|rs| - 1]] else []
  }

  function Count(rs: seq<Result>, ok: bool): nat {
    |OfKind(rs, ok)|
  }

  /** The results kept for the live log: those with fewer than the cap of their kind before them. */
  function Kept(rs: seq<Result>): seq<Result> {
    if rs == [] then []
    else
      var front, last := rs[..|rs| - 1], rs[|rs| - 1];
      Kept(front) + if Count(front, last.ok) < Cap(last.ok) then [last] else []
  }

  function Min(a: nat, b: nat): nat {
    if a <= b then a else b
  }

  lemma {:induction false} KeptOfKind(rs: seq<Result>, ok: bool)
    ensures OfKind(Kept(rs), ok) == FirstFew(OfKind(rs, ok), Cap(ok))
  {
    if rs != [] {
      var front, last := rs[..|rs| - 1], rs[|rs| - 1];
      KeptOfKind(front, ok);
      OfKindAppend(Kept(front), last, ok);
      FirstFewAppend(OfKind(front, ok), last, Cap(ok));
      assert Kept(front) + [] == Kept(front) && OfKind(front, ok) + [] == OfKind(front, ok);
    }
  }

  /** However many results a window sees, exactly the first 20 good and 40 bad ones are kept. */
  lemma KeepsTheFirst(rs: seq<Result>)
    ensures OfKind(Kept(rs), true) == FirstFew(OfKind(rs, true), 20)
    ensures OfKind(Kept(rs), false) == FirstFew(OfKind(rs, false), 40)
  {
    KeptOfKind(rs, true);
    KeptOfKind(rs, false);
  }

  function FirstFew(rs: seq<Result>, n: nat): seq<Result> {
    rs[..Min(|rs|, n)]
  }

  lemma FirstFewAppend(rs: seq<Result>, r: Result, n: nat)
    ensures FirstFew(rs + [r], n) == FirstFew(rs, n) + if |rs| < n then [r] else []
  {
  }

  lemma OfKindAppend(rs: seq<Result>, r: Result, ok: bool)
    ensures OfKind(rs + [r], ok) == OfKind(rs, ok) + if r.ok == ok then [r] else []
  {
    assert (rs + [r])[..|rs|] == rs;
  }

  // ------------------------------------------------------------------ the sampler

  class RunSampler {
    const workerId: WorkerId
    var rec: Recorder
    var samples: seq<Result>
    var okSamples: nat
    var errSamps: nat
    var activeVus: int
    ghost var window: seq<Result> // everything recorded since the last flush

    ghost predicate Valid()
      reads this, rec
    {
      && rec.buckets == RecordAll(window)
      && samples == Kept(window)
      && okSamples == Min(Count(window, true), OK_SAMPLE_CAP)
      && errSamps == Min(Count(window, false), ERR_SAMPLE_CAP)
    }

    constructor (workerId: WorkerId)
      ensures Valid() && window == [] && this.workerId == workerId && fresh(rec)
    {
      this.workerId := workerId;
      rec := new Recorder();
      samples, okSamples, errSamps, activeVus, window := [], 0, 0, 0, [];
    }

    method Record(r: Result)
      requires Valid()
      modifies this, rec
      ensures Valid() && window == old(window) + [r] && activeVus == old(activeVus) && rec == old(rec)
    {
      rec.Record(r);
      window := window + [r];
      assert window[..|window| - 1] == old(window);
      MaybeSample(r);
    }

    method MaybeSample(r: Result)
      requires window != [] && window[|window| - 1] == r
      requires var front := window[..|window| - 1];
               samples == Kept(front)
               && okSamples == Min(Count(front, true), OK_SAMPLE_CAP)
               && errSamps == Min(Count(front, false), ERR_SAMPLE_CAP)
      modifies this`samples, this`okSamples, this`errSamps
      ensures samples == Kept(window)
      ensures okSamples == Min(Count(window, true), OK_SAMPLE_CAP)
      ensures errSamps == Min(Count(window, false), ERR_SAMPLE_CAP)
    {
      if r.ok {
        if okSamples >= OK_SAMPLE_CAP {
          return;
        }
        okSamples := okSamples + 1;
      } else {
        if errSamps >= ERR_SAMPLE_CAP {
          return;
        }
        errSamps := errSamps + 1;
      }
      samples := samples + [r];
    }

    /** Hands over the window and starts an empty one; an empty window still makes a batch. */
    method Flush(bucketUnixMs: int) returns (b: Batch)
      requires Valid()
      modifies this
      ensures Valid() && window == [] && activeVus == old(activeVus) && fresh(rec)
      ensures b.workerId == workerId && b.bucketUnixMs == bucketUnixMs && b.activeVus == activeVus
      ensures b.samples == Kept(old(window))
      ensures Lists(b.agg, RecordAll(old(window)))
    {
      var prev, kept := rec.buckets, samples;
      rec := new Recorder();
      samples, okSamples, errSamps, window := [], 0, 0, [];
      var agg := ListSlices(prev);
      b := Batch(workerId, bucketUnixMs, activeVus, agg, kept);
    }
  }

  method ListSlices(m: Buckets) returns (agg: seq<AggSlice>)
    ensures Lists(agg, m)
  {
    agg := [];
    var rest := m.Keys;
    assert m - rest == map[];
    while rest != {}
      invariant rest <= m.Keys && Lists(agg, m - rest)
      decreases |rest|
    {
      var k := PickOne(rest);
      ListsOneMore(agg, m - rest, k, m[k]);
      assert (m - rest)[k := m[k]] == m - (rest - {k});
      agg := agg + [AggSlice(k, m[k])];
      rest := rest - {k};
    }
    assert m - {} == m;
  }

  lemma ListsOneMore(agg: seq<AggSlice>, m: Buckets, k: Key, b: Bucket)
    requires Lists(agg, m) && k !in m
    ensures Lists(agg + [AggSlice(k, b)], m[k := b])
  {
    var more, m' := agg + [AggSlice(k, b)], m[k := b];
    forall j | j in m' ensures exists i :: 0 <= i < |more| && more[i].key == j {
      if j == k {
        assert more[|agg|].key == j;
      } else {
        var i :| 0 <= i < |agg| && agg[i].key == j;
        assert more[i].key == j;
      }
    }
  }
}
