/** The login rate limiter (internal/apisrv/ratelimit.go): a fixed window per key that prunes itself. */
module RateLimiter {
  import opened Collections

  const PRUNE_ABOVE := 4096

  datatype Window = Window(count: int, reset: int)

  type Table = map<string, Window>

  /** The limiter without pruning. */
  function Attempt(m: Table, max: int, window: int, key: string, now: int): (Table, bool) {
    if key !in m || now > m[key].reset then (m[key := Window(1, now + window)], true)
    else (m[key := Window(m[key].count + 1, m[key].reset)], m[key].count + 1 <= max)
  }

  function Prune(m: Table, now: int): Table {
    map k | k in m && now <= m[k].reset :: m[k]
  }

  /** The limiter as written: opening a window drops expired ones when there are many. */
  function Allow(m: Table, max: int, window: int, key: string, now: int): (Table, bool) {
    if key !in m || now > m[key].reset then
      ((if |m| > PRUNE_ABOVE then Prune(m, now) else m)[key := Window(1, now + window)], true)
    else (m[key := Window(m[key].count + 1, m[key].reset)], m[key].count + 1 <= max)
  }

  class Limiter {
    const max: int
    const window: int
    var buckets: Table

    constructor (max: int, window: int)
      ensures this.max == max && this.window == window && buckets == map[]
    {
      this.max, this.window, buckets := max, window, map[];
    }

    method AllowKey(key: string, now: int) returns (ok: bool)
      modifies this
      ensures (buckets, ok) == Allow(old(buckets), max, window, key, now)
    {
      if key !in buckets || now > buckets[key].reset {
        if |buckets| > PRUNE_ABOVE {
          DropExpired(now);
        }
        buckets := buckets[key := Window(1, now + window)];
        return true;
      }
      buckets := buckets[key := Window(buckets[key].count + 1, buckets[key].reset)];
      return buckets[key].count <= max;
    }

    method DropExpired(now: int)
      modifies this
      ensures buckets == Prune(old(buckets), now)
    {
      var rest := buckets.Keys;
      while rest != {}
        invariant rest <= buckets.Keys <= old(buckets).Keys
        invariant forall k :: k in buckets ==> buckets[k] == old(buckets)[k]
        invariant forall k :: k in old(buckets) && k !in rest ==> (k in buckets <==> now <= old(buckets)[k].reset)
        decreases |rest|
      {
        var k := PickOne(rest);
        rest := rest - {k};
        if now > buckets[k].reset {
          buckets := buckets - {k};
        }
      }
    }
  }

  // ------------------------------------------------------------- call sequences

  datatype Call = Call(key: string, now: int)

  ghost predicate Monotone(calls: seq<Call>) {
    forall i, j :: 0 <= i < j < |calls| ==> calls[i].now <= calls[j].now
  }

  function Plain(max: int, window: int, calls: seq<Call>): Table {
    if calls == [] then map[]
    else
      var last := calls[|calls| - 1];
      Attempt(Plain(max, window, calls[..|calls| - 1]), max, window, last.key, last.now).0
  }

  function Pruning(max: int, window: int, calls: seq<Call>): Table {
    if calls == [] then map[]
    else
      var last := calls[|calls| - 1];
      Allow(Pruning(max, window, calls[..|calls| - 1]), max, window, last.key, last.now).0
  }

  /** Whether the last of these calls is admitted. */
  function Admits(max: int, window: int, calls: seq<Call>): bool
    requires calls != []
  {
    var last := calls[|calls| - 1];
    Attempt(Plain(max, window, calls[..|calls| - 1]), max, window, last.key, last.now).1
  }

  /** `p` is `m` minus windows that had expired at some time up to `now`. */
  ghost predicate PrunedFrom(p: Table, m: Table, now: int) {
    && (forall k :: k in p ==> k in m && p[k] == m[k])
    && (forall k :: k in m && k !in p ==> m[k].reset < now)
  }

  lemma AllowFollows(p: Table, m: Table, max: int, window: int, key: string, now: int)
    requires PrunedFrom(p, m, now)
    ensures Allow(p, max, window, key, now).1 == Attempt(m, max, window, key, now).1
    ensures PrunedFrom(Allow(p, max, window, key, now).0, Attempt(m, max, window, key, now).0, now)
  {
  }

  lemma {:induction false} PruningFollows(max: int, window: int, calls: seq<Call>, now: int)
    requires Monotone(calls) && (calls != [] ==> calls[|calls| - 1].now <= now)
    ensures PrunedFrom(Pruning(max, window, calls), Plain(max, window, calls), now)
    decreases |calls|
  {
    if calls != [] {
      var front, last := calls[..|calls| - 1], calls[|calls| - 1];
      PruningFollows(max, window, front, last.now);
      AllowFollows(Pruning(max, window, front), Plain(max, window, front), max, window, last.key, last.now);
    }
  }

  /** With a monotone clock, pruning never changes an answer. */
  lemma PruningIsInvisible(max: int, window: int, calls: seq<Call>)
    requires Monotone(calls) && calls != []
    ensures var front, last := calls[..|calls| - 1], calls[|calls| - 1];
            Allow(Pruning(max, window, front), max, window, last.key, last.now).1 == Admits(max, window, calls)
  {
    var front, last := calls[..|calls| - 1], calls[|calls| - 1];
    PruningFollows(max, window, front, last.now);
    AllowFollows(Pruning(max, window, front), Plain(max, window, front), max, window, last.key, last.now);
  }

  /** How many calls for the key were admitted at times in [lo, hi]. */
  ghost function Admitted(max: int, window: int, calls: seq<Call>, key: string, lo: int, hi: int): nat {
    if calls == [] then 0
    else
      var last := calls[|calls| - 1];
      Admitted(max, window, calls[..|calls| - 1], key, lo, hi)
      + if last.key == key && lo <= last.now <= hi && Admits(max, window, calls) then 1 else 0
  }

  /**
   The state of a key's window tells how much it has admitted: at most its count and at most
   max since the window opened, nothing after its reset, and over any span that begins no
   more than one window before it opened, at most max on top of that.
   */
  lemma {:induction false} WindowBounds(max: int, window: int, calls: seq<Call>, key: string, lo: int, hi: int)
    requires Monotone(calls) && max >= 1 && window >= 0
    requires calls != [] ==> calls[|calls| - 1].now <= hi
    ensures key !in Plain(max, window, calls) ==> Admitted(max, window, calls, key, lo, hi) == 0
    ensures key in Plain(max, window, calls) ==>
              var w := Plain(max, window, calls)[key];
              var start := w.reset - window;
              var since := Admitted(max, window, calls, key, start, hi);
              var span := Admitted(max, window, calls, key, lo, hi);
              && calls != [] && start <= calls[|calls| - 1].now
              && since <= w.count && since <= max
              && (lo > w.reset ==> span == 0)
              && (lo >= start ==> span <= since)
              && (start <= lo + window ==> span <= max + since)
    decreases |calls|
  {
    if calls != [] {
      var front, last := calls[..|calls| - 1], calls[|calls| - 1];
      WindowBounds(max, window, front, key, lo, hi);
      if last.key == key {
        var m := Plain(max, window, front);
        if key !in m || last.now > m[key].reset {
          WindowBounds(max, window, front, key, last.now, hi);
        } else {
          WindowBounds(max, window, front, key, m[key].reset - window, hi);
        }
      } else if key in Plain(max, window, front) {
        WindowBounds(max, window, front, key, Plain(max, window, front)[key].reset - window, hi);
      }
    }
  }

  lemma {:induction false} LaterCallsDoNotCount(max: int, window: int, calls: seq<Call>, key: string, lo: int, hi: int) returns (n: nat)
    requires Monotone(calls)
    ensures n <= |calls| && (n > 0 ==> calls[n - 1].now <= hi)
    ensures Admitted(max, window, calls, key, lo, hi) == Admitted(max, window, calls[..n], key, lo, hi)
    decreases |calls|
  {
    if calls == [] || calls[|calls| - 1].now <= hi {
      n := |calls|;
      assert calls[..n] == calls;
    } else {
      var front := calls[..|calls| - 1];
      n := LaterCallsDoNotCount(max, window, front, key, lo, hi);
      assert front[..n] == calls[..n];
    }
  }

  /** Any closed interval of one window length admits at most twice the maximum per key. */
  lemma AtMostTwiceMax(max: int, window: int, calls: seq<Call>, key: string, lo: int)
    requires Monotone(calls) && max >= 1 && window >= 0
    ensures Admitted(max, window, calls, key, lo, lo + window) <= 2 * max
  {
    var n := LaterCallsDoNotCount(max, window, calls, key, lo, lo + window);
    WindowBounds(max, window, calls[..n], key, lo, lo + window);
  }

  // ------------------------------------------------------- who exactly is admitted

  /** A call opens a window if no window of its key that was opened before covers it. */
  ghost predicate Opening(window: int, calls: seq<Call>, i: nat)
    requires i < |calls|
  {
    forall j :: 0 <= j < i && calls[j].key == calls[i].key && Opening(window, calls, j) ==>
      calls[i].now > calls[j].now + window
  }

  lemma {:induction false} OpeningInPrefix(window: int, calls: seq<Call>, n: nat, i: nat)
    requires i < n <= |calls|
    ensures Opening(window, calls[..n], i) <==> Opening(window, calls, i)
    decreases i
  {
    forall j | 0 <= j < i ensures Opening(window, calls[..n], j) <==> Opening(window, calls, j) {
      OpeningInPrefix(window, calls, n, j);
    }
  }

  /** Call o opened the key's current window. */
  ghost predicate Current(window: int, calls: seq<Call>, o: nat, key: string) {
    && o < |calls| && calls[o].key == key && Opening(window, calls, o)
    && forall j :: o < j < |calls| && calls[j].key == key ==> !Opening(window, calls, j)
  }

  function Attempts(calls: seq<Call>, key: string): nat {
    if calls == [] then 0
    else Attempts(calls[..|calls| - 1], key) + if calls[|calls| - 1].key == key then 1 else 0
  }

  ghost predicate Describes(window: int, calls: seq<Call>, o: nat, key: string, w: Window) {
    Current(window, calls, o, key) && w.reset == calls[o].now + window && w.count == Attempts(calls[o..], key)
  }

  lemma CurrentInFront(window: int, calls: seq<Call>, o: nat, key: string)
    requires calls != [] && o < |calls| - 1
    ensures var n := |calls| - 1;
            Current(window, calls, o, key) <==>
              Current(window, calls[..n], o, key) && !(calls[n].key == key && Opening(window, calls, n))
  {
    var n := |calls| - 1;
    forall j | 0 <= j < n ensures Opening(window, calls[..n], j) <==> Opening(window, calls, j) {
      OpeningInPrefix(window, calls, n, j);
    }
    if Current(window, calls[..n], o, key) && !(calls[n].key == key && Opening(window, calls, n)) {
      forall j | o < j < |calls| && calls[j].key == key ensures !Opening(window, calls, j) {
        assert j < n ==> calls[..n][j] == calls[j];
      }
    }
  }

  /** With a monotone clock, a call opens a window exactly if the current one does not reach it. */
  lemma OpensIffUncovered(window: int, calls: seq<Call>, o: nat)
    requires calls != [] && Monotone(calls) && o < |calls| - 1
    requires Current(window, calls[..|calls| - 1], o, calls[|calls| - 1].key)
    ensures Opening(window, calls, |calls| - 1) <==> calls[|calls| - 1].now > calls[o].now + window
  {
    var n := |calls| - 1;
    forall j | 0 <= j < n ensures Opening(window, calls[..n], j) <==> Opening(window, calls, j) {
      OpeningInPrefix(window, calls, n, j);
    }
    assert Opening(window, calls, o) && calls[o].key == calls[n].key;
    forall j | 0 <= j < n && calls[j].key == calls[n].key && Opening(window, calls, j) ensures j <= o {
      assert calls[..n][j] == calls[j];
    }
  }

  lemma AttemptsNext(calls: seq<Call>, o: nat, key: string)
    requires o < |calls|
    ensures var n := |calls| - 1;
            Attempts(calls[o..], key)
            == (if o < n then Attempts(calls[..n][o..], key) else 0) + if calls[n].key == key then 1 else 0
  {
    var n := |calls| - 1;
    assert calls[o..][..|calls[o..]| - 1] == calls[..n][o..];
  }

  /** A key has a window exactly if it was ever called for, and it is the one its last opening opened. */
  lemma {:induction false} WindowIs(max: int, window: int, calls: seq<Call>, key: string) returns (o: nat)
    requires Monotone(calls)
    ensures key in Plain(max, window, calls) ==> Describes(window, calls, o, key, Plain(max, window, calls)[key])
    ensures key !in Plain(max, window, calls) ==> forall j :: 0 <= j < |calls| ==> calls[j].key != key
    decreases |calls|
  {
    o := 0;
    if calls != [] {
      var n := |calls| - 1;
      var front, last := calls[..n], calls[n];
      o := WindowIs(max, window, front, key);
      var m := Plain(max, window, front);
      assert forall j :: 0 <= j < n ==> front[j] == calls[j];
      if last.key != key {
        if key in m {
          CurrentInFront(window, calls, o, key);
          AttemptsNext(calls, o, key);
        }
      } else {
        if key in m {
          OpensIffUncovered(window, calls, o);
          CurrentInFront(window, calls, o, key);
        }
        if key !in m || last.now > m[key].reset {
          o := n;
          assert Opening(window, calls, n);
        }
        AttemptsNext(calls, o, key);
      }
    }
  }

  /**
   Who is admitted, exactly, read off the calls alone: an attempt is let through if and only if
   it is among the first `max` of its window, counting from the call that opened it, or opens
   the window itself. (So with max >= 1, the first max attempts of every window and no others.)
   */
  lemma AdmittedIff(max: int, window: int, calls: seq<Call>) returns (o: nat)
    requires Monotone(calls) && calls != []
    ensures Current(window, calls, o, calls[|calls| - 1].key)
    ensures Admits(max, window, calls) <==>
              Opening(window, calls, |calls| - 1) || Attempts(calls[o..], calls[|calls| - 1].key) <= max
  {
    var n, last := |calls| - 1, calls[|calls| - 1];
    o := WindowIs(max, window, calls, last.key);
    var front := calls[..n];
    var p := WindowIs(max, window, front, last.key);
    var m := Plain(max, window, front);
    if last.key in m {
      OpensIffUncovered(window, calls, p);
      CurrentInFront(window, calls, p, last.key);
    } else {
      assert forall j :: 0 <= j < n ==> front[j] == calls[j];
      assert Opening(window, calls, n);
    }
  }
}
