/**
 Recording results into buckets (internal/metrics). A latency histogram is the multiset of
 the clamped values it was given, so merging histograms is multiset sum.
 */
module Metrics {
  import opened Collections

  const LATENCY_MIN_US := 1
  const LATENCY_MAX_US := 600_000_000

  datatype Result = Result(
    group: string,
    status: int,
    ok: bool,
    errorKind: string,
    latencyUs: int,
    sentBytes: int,
    recvBytes: int)

  predicate IsError(r: Result) {
    !r.ok || r.errorKind != ""
  }

  function StatusClass(status: int, ok: bool, errorKind: string): string {
    if errorKind != "" || !ok then
      if status >= 500 then "5xx" else if status >= 400 then "4xx" else "err"
    else if status >= 500 then "5xx"
    else if status >= 400 then "4xx"
    else "2xx"
  }

  datatype Key = Key(group: string, statusClass: string)

  datatype Bucket = Bucket(count: int, errors: int, sentBytes: int, recvBytes: int, hist: multiset<int>)

  type Buckets = map<Key, Bucket>

  const ZERO := Bucket(0, 0, 0, 0, multiset{})

  function Plus(a: Bucket, b: Bucket): Bucket {
    Bucket(a.count + b.count, a.errors + b.errors, a.sentBytes + b.sentBytes, a.recvBytes + b.recvBytes, a.hist + b.hist)
  }

  function At(m: Buckets, k: Key): Bucket {
    if k in m then m[k] else ZERO
  }

  function Absorb(m: Buckets, k: Key, b: Bucket): Buckets {
    m[k := Plus(At(m, k), b)]
  }

  function KeyOf(r: Result): Key {
    Key(r.group, StatusClass(r.status, r.ok, r.errorKind))
  }

  /** The value in range that is nearest to the measured one. */
  function Clamp(latencyUs: int): (r: int)
    ensures latencyUs <= 1 ==> r == 1
    ensures latencyUs >= 600_000_000 ==> r == 600_000_000
    ensures 1 <= latencyUs <= 600_000_000 ==> r == latencyUs
  {
    if latencyUs < LATENCY_MIN_US then LATENCY_MIN_US
    else if latencyUs > LATENCY_MAX_US then LATENCY_MAX_US
    else latencyUs
  }

  /** The bucket of a single result. */
  function Unit(r: Result): Bucket {
    Bucket(1, if IsError(r) then 1 else 0, r.sentBytes, r.recvBytes, multiset{Clamp(r.latencyUs)})
  }

  /** What one recorder holds after being fed the results in order. */
  function RecordAll(rs: seq<Result>): Buckets {
    if rs == [] then map[]
    else Absorb(RecordAll(rs[..|rs| - 1]), KeyOf(rs[|rs| - 1]), Unit(rs[|rs| - 1]))
  }

  class Recorder {
    var buckets: Buckets

    constructor ()
      ensures buckets == RecordAll([])
    {
      buckets := map[];
    }

    method Record(r: Result)
      modifies this
      ensures buckets == Absorb(old(buckets), KeyOf(r), Unit(r))
    {
      var k := Key(r.group, StatusClass(r.status, r.ok, r.errorKind));
      var b := if k in buckets then buckets[k] else ZERO;
      var errors := b.errors;
      if !r.ok || r.errorKind != "" {
        errors := errors + 1;
      }
      var latencyUs := r.latencyUs;
      if latencyUs < LATENCY_MIN_US {
        latencyUs := LATENCY_MIN_US;
      }
      if latencyUs > LATENCY_MAX_US {
        latencyUs := LATENCY_MAX_US;
      }
      buckets := buckets[k := Bucket(b.count + 1, errors, b.sentBytes + r.sentBytes, b.recvBytes + r.recvBytes,
                                     b.hist + multiset{latencyUs})];
    }

    method Reset()
      modifies this
      ensures buckets == RecordAll([])
    {
      buckets := map[];
    }
  }

  // --------------------------------------------------------------- group-by view

  /**
   Which results a key stands for, from their fields: the group's server errors, client errors,
   other failures, and the rest, which is everything that went well below 400.
   */
  predicate Belongs(r: Result, k: Key) {
    && r.group == k.group
    && (|| (k.statusClass == "5xx" && r.status >= 500)
        || (k.statusClass == "4xx" && 400 <= r.status < 500)
        || (k.statusClass == "err" && r.status < 400 && (!r.ok || r.errorKind != ""))
        || (k.statusClass == "2xx" && r.status < 400 && r.ok && r.errorKind == ""))
  }

  /** Every result is recorded under the one key it belongs to. */
  lemma KeyIsWhereItBelongs(r: Result, k: Key)
    ensures KeyOf(r) == k <==> Belongs(r, k)
  {
    assert "5xx"[0] == '5' && "4xx"[0] == '4' && "2xx"[0] == '2' && "err"[0] == 'e';
  }

  function Select(rs: seq<Result>, k: Key): seq<Result> {
    if rs == [] then []
    else Select(rs[..|rs| - 1], k) + if Belongs(rs[|rs| - 1], k) then [rs[|rs| - 1]] else []
  }

  /** The failed results: not ok, or with a kind of error noted, whatever their status. */
  function Errors(rs: seq<Result>): seq<Result> {
    if rs == [] then []
    else
      var last := rs[|rs| - 1];
      Errors(rs[..|rs| - 1]) + if !last.ok || last.errorKind != "" then [last] else []
  }

  function Latencies(rs: seq<Result>): seq<int> {
    seq(|rs|, i requires 0 <= i < |rs| => Clamp(rs[i].latencyUs))
  }

  function Sent(rs: seq<Result>): seq<int> {
    seq(|rs|, i requires 0 <= i < |rs| => rs[i].sentBytes)
  }

  function Recv(rs: seq<Result>): seq<int> {
    seq(|rs|, i requires 0 <= i < |rs| => rs[i].recvBytes)
  }

  /** The bucket that grouping a list of results would give. */
  function Tally(rs: seq<Result>): Bucket {
    Bucket(|rs|, |Errors(rs)|, Sum(Sent(rs)), Sum(Recv(rs)), multiset(Latencies(rs)))
  }

  lemma TallyAppend(rs: seq<Result>, r: Result)
    ensures Tally(rs + [r]) == Plus(Tally(rs), Unit(r))
  {
    var all := rs + [r];
    assert all[..|all| - 1] == rs;
    assert Sent(all) == Sent(rs) + [r.sentBytes];
    assert Recv(all) == Recv(rs) + [r.recvBytes];
    assert Latencies(all) == Latencies(rs) + [Clamp(r.latencyUs)];
    SumAppend(Sent(rs), r.sentBytes);
    SumAppend(Recv(rs), r.recvBytes);
  }

  /** Incremental recording is a group-by: same keys, same totals, same latencies. */
  lemma {:induction false} RecordIsGroupBy(rs: seq<Result>, k: Key)
    ensures k in RecordAll(rs) <==> Select(rs, k) != []
    ensures k in RecordAll(rs) ==> RecordAll(rs)[k] == Tally(Select(rs, k))
  {
    if rs != [] {
      var front, last := rs[..|rs| - 1], rs[|rs| - 1];
      RecordIsGroupBy(front, k);
      KeyIsWhereItBelongs(last, k);
      if KeyOf(last) == k {
        TallyOfNothing();
        TallyAppend(Select(front, k), last);
      } else {
        assert Select(rs, k) == Select(front, k);
      }
    }
  }

  lemma TallyOfNothing()
    ensures Tally([]) == ZERO
  {
  }

  /** The errors are some of the results. */
  predicate Bounded(b: Bucket) {
    0 <= b.errors <= b.count
  }

  ghost predicate Lawful(b: Bucket, statusClass: string) {
    && Bounded(b) && b.count == |b.hist|
    && (statusClass == "2xx" ==> b.errors == 0)
    && (statusClass == "err" ==> b.errors == b.count)
    && forall v :: v in b.hist ==> LATENCY_MIN_US <= v <= LATENCY_MAX_US
  }

  lemma PlusUnitLawful(b: Bucket, r: Result)
    requires Lawful(b, KeyOf(r).statusClass)
    ensures Lawful(Plus(b, Unit(r)), KeyOf(r).statusClass)
  {
  }

  /**
   The laws of the classes: errors never exceed the count, a "2xx" bucket has none, an "err"
   bucket has nothing else, and there is one clamped latency per result.
   */
  lemma {:induction false} ClassLaws(rs: seq<Result>, k: Key)
    requires k in RecordAll(rs)
    ensures 0 < RecordAll(rs)[k].count && Lawful(RecordAll(rs)[k], k.statusClass)
  {
    var front, last := rs[..|rs| - 1], rs[|rs| - 1];
    if k in RecordAll(front) {
      ClassLaws(front, k);
    }
    if KeyOf(last) == k {
      PlusUnitLawful(At(RecordAll(front), k), last);
    }
  }

  // ---------------------------------------------------------------- merging

  function Merge(a: Buckets, b: Buckets): Buckets {
    map k | k in a.Keys + b.Keys :: Plus(At(a, k), At(b, k))
  }

  lemma MergeCommutes(a: Buckets, b: Buckets)
    ensures Merge(a, b) == Merge(b, a)
  {
    assert forall k :: k in a.Keys + b.Keys ==> Merge(a, b)[k] == Merge(b, a)[k];
  }

  lemma AtMerge(a: Buckets, b: Buckets, k: Key)
    ensures At(Merge(a, b), k) == Plus(At(a, k), At(b, k))
  {
    assert ZERO.hist + ZERO.hist == ZERO.hist;
  }

  lemma PlusAssociates(a: Bucket, b: Bucket, c: Bucket)
    ensures Plus(Plus(a, b), c) == Plus(a, Plus(b, c))
  {
    assert a.hist + b.hist + c.hist == a.hist + (b.hist + c.hist);
  }

  lemma SameBuckets(a: Buckets, b: Buckets)
    requires a.Keys == b.Keys && forall k :: k in a ==> At(a, k) == At(b, k)
    ensures a == b
  {
    assert forall k :: k in a ==> a[k] == At(a, k) && b[k] == At(b, k);
  }

  lemma MergeAssociates(a: Buckets, b: Buckets, c: Buckets)
    ensures Merge(Merge(a, b), c) == Merge(a, Merge(b, c))
  {
    var l, r := Merge(Merge(a, b), c), Merge(a, Merge(b, c));
    assert l.Keys == a.Keys + b.Keys + c.Keys == r.Keys;
    forall k | k in l ensures At(l, k) == At(r, k) {
      AtMerge(Merge(a, b), c, k);
      AtMerge(a, b, k);
      AtMerge(a, Merge(b, c), k);
      AtMerge(b, c, k);
      PlusAssociates(At(a, k), At(b, k), At(c, k));
    }
    SameBuckets(l, r);
  }

  lemma PlusZero(b: Bucket)
    ensures Plus(b, ZERO) == b
  {
    assert b.hist + multiset{} == b.hist;
  }

  /** Absorbing one bucket is merging a map that holds nothing else. */
  lemma AbsorbOne(m: Buckets, k: Key, x: Bucket)
    ensures Absorb(m, k, x) == Merge(m, map[k := x])
  {
    var one := map[k := x];
    var l, r := Absorb(m, k, x), Merge(m, one);
    assert l.Keys == m.Keys + {k} == r.Keys;
    forall j | j in l ensures At(l, j) == At(r, j) {
      AtMerge(m, one, j);
      if j != k {
        PlusZero(At(m, j));
      }
    }
    SameBuckets(l, r);
  }

  lemma MergeAbsorb(a: Buckets, b: Buckets, k: Key, x: Bucket)
    ensures Merge(a, Absorb(b, k, x)) == Absorb(Merge(a, b), k, x)
  {
    AbsorbOne(b, k, x);
    AbsorbOne(Merge(a, b), k, x);
    MergeAssociates(a, b, map[k := x]);
  }

  lemma MergeNothing(a: Buckets)
    ensures Merge(a, map[]) == a && Merge(map[], a) == a
  {
    assert Merge(a, map[]).Keys == a.Keys && Merge(map[], a).Keys == a.Keys;
    forall k | k in a ensures Merge(a, map[])[k] == a[k] && Merge(map[], a)[k] == a[k] {
      assert a[k].hist + multiset{} == a[k].hist;
    }
  }

  /** Recording in two places and merging is recording in one. */
  lemma {:induction false} RecordDistributes(a: seq<Result>, b: seq<Result>)
    ensures RecordAll(a + b) == Merge(RecordAll(a), RecordAll(b))
  {
    if b == [] {
      assert a + b == a;
      MergeNothing(RecordAll(a));
    } else {
      var front, last := b[..|b| - 1], b[|b| - 1];
      assert (a + b)[..|a + b| - 1] == a + front;
      RecordDistributes(a, front);
      MergeAbsorb(RecordAll(a), RecordAll(front), KeyOf(last), Unit(last));
    }
  }

  lemma RecordLater(l: seq<Result>, x: Result, r: seq<Result>)
    ensures RecordAll(l + [x] + r) == RecordAll(l + r + [x])
  {
    var L, X, R := RecordAll(l), RecordAll([x]), RecordAll(r);
    RecordDistributes(l + [x], r);
    RecordDistributes(l, [x]);
    MergeAssociates(L, X, R);
    MergeCommutes(X, R);
    MergeAssociates(L, R, X);
    RecordDistributes(l, r);
    RecordDistributes(l + r, [x]);
  }

  /** The order in which results reach a recorder is immaterial. */
  lemma {:induction false} RecordIgnoresOrder(a: seq<Result>, b: seq<Result>)
    requires multiset(a) == multiset(b)
    ensures RecordAll(a) == RecordAll(b)
    decreases |a|
  {
    if a == [] {
      assert |multiset(b)| == 0;
    } else {
      var j := TakeOut(a, b);
      var front, x, l, r := a[..|a| - 1], a[|a| - 1], b[..j], b[j + 1..];
      RecordIgnoresOrder(front, l + r);
      RecordLater(l, x, r);
      assert (l + r + [x])[..|l + r|] == l + r;
    }
  }

  // ------------------------------------------------------------- totals over keys

  /** All the buckets of a map added up, in whatever order the keys are visited. */
  ghost function BucketSum(m: Buckets): Bucket {
    if m == map[] then ZERO
    else
      var k :| k in m;
      Plus(m[k], BucketSum(m - {k}))
  }

  lemma PlusSwaps(a: Bucket, b: Bucket, c: Bucket)
    ensures Plus(a, Plus(b, c)) == Plus(b, Plus(a, c))
  {
    assert a.hist + (b.hist + c.hist) == b.hist + (a.hist + c.hist);
  }

  lemma {:induction false} BucketSumRemove(m: Buckets, k: Key)
    requires k in m
    ensures BucketSum(m) == Plus(m[k], BucketSum(m - {k}))
    decreases |m|
  {
    var j :| j in m && BucketSum(m) == Plus(m[j], BucketSum(m - {j}));
    if j != k {
      BucketSumRemove(m - {j}, k);
      BucketSumRemove(m - {k}, j);
      assert m - {j} - {k} == m - {k} - {j};
      PlusSwaps(m[j], m[k], BucketSum(m - {j} - {k}));
    }
  }

  lemma BucketSumAbsorb(m: Buckets, k: Key, b: Bucket)
    ensures BucketSum(Absorb(m, k, b)) == Plus(BucketSum(m), b)
  {
    var m' := Absorb(m, k, b);
    BucketSumRemove(m', k);
    assert m' - {k} == m - {k};
    var rest := BucketSum(m - {k});
    if k in m {
      BucketSumRemove(m, k);
    } else {
      assert m - {k} == m;
      PlusZero(rest);
    }
    PlusRotates(At(m, k), b, rest);
  }

  lemma PlusRotates(a: Bucket, b: Bucket, c: Bucket)
    ensures Plus(Plus(a, b), c) == Plus(Plus(a, c), b)
    ensures Plus(ZERO, c) == Plus(c, ZERO)
  {
    assert a.hist + b.hist + c.hist == a.hist + c.hist + b.hist;
    assert multiset{} + c.hist == c.hist + multiset{};
  }
}
