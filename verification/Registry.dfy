/** The worker registry (internal/coordinator/registry) and the streams that own its entries. */
module Registry {
  import opened Collections
  import LoadShape

  type Channel = nat   // identity of one stream's send channel
  type Protocol = nat  // 0 is the unspecified protocol
  const UNSPECIFIED: Protocol := 0

  datatype Worker = Worker(
    id: WorkerId,
    region: string,
    cpuCores: int,
    supported: seq<Protocol>,
    send: Channel,
    stats: Stats,
    lastSeen: int,
    connected: int)

  /** What a heartbeat reports; the last four are network traffic. */
  datatype Stats = Stats(
    activeVus: int,
    cpuPct: real,
    memBytes: int,
    memTotalBytes: int,
    netRxBps: int,
    netTxBps: int,
    netRxPps: int,
    netTxPps: int)

  const NO_STATS := Stats(0, 0.0, 0, 0, 0, 0, 0, 0)

  /** Per-core CPU usage as a share of the whole machine, when its size is known. */
  function CpuUtilization(w: Worker): real {
    if w.cpuCores > 1 then w.stats.cpuPct / w.cpuCores as real else w.stats.cpuPct
  }

  function MemUtilization(w: Worker): real {
    if w.stats.memTotalBytes <= 0 then 0.0 else 100.0 * w.stats.memBytes as real / w.stats.memTotalBytes as real
  }

  predicate Eligible(w: Worker, proto: Protocol, cpuMax: real, memMax: real, now: int, ttl: int) {
    && now - w.lastSeen <= ttl
    && (proto == UNSPECIFIED || proto in w.supported)
    && (cpuMax > 0.0 ==> CpuUtilization(w) < cpuMax)
    && (memMax > 0.0 ==> MemUtilization(w) < memMax)
  }

  /**
   Who is eligible, with the divisions multiplied out: seen within its lifetime, able to speak
   the protocol, below the CPU share of all its cores, and below the share of its memory (a
   worker that reports no memory passes). A threshold of zero or less is none.
   */
  lemma EligibleIff(w: Worker, proto: Protocol, cpuMax: real, memMax: real, now: int, ttl: int)
    ensures Eligible(w, proto, cpuMax, memMax, now, ttl) <==>
              && w.lastSeen + ttl >= now
              && (proto == UNSPECIFIED || proto in w.supported)
              && (cpuMax > 0.0 ==> w.stats.cpuPct < cpuMax * (if w.cpuCores > 1 then w.cpuCores as real else 1.0))
              && (memMax > 0.0 && w.stats.memTotalBytes > 0 ==>
                    100.0 * w.stats.memBytes as real < memMax * w.stats.memTotalBytes as real)
  {
    if w.cpuCores > 1 {
      BelowIff(w.stats.cpuPct, w.cpuCores as real, cpuMax);
    }
    if w.stats.memTotalBytes > 0 {
      BelowIff(100.0 * w.stats.memBytes as real, w.stats.memTotalBytes as real, memMax);
    }
  }

  lemma BelowIff(x: real, n: real, max: real)
    requires n > 0.0
    ensures x / n < max <==> x < max * n
  {
    var q := x / n;
    assert q * n == x;
    assert (max - q) * n == max * n - x;
    if q < max {
      LoadShape.TimesPositive(max - q, n);
    } else {
      LoadShape.TimesNonNegative(q - max, n);
      assert (q - max) * n == -((max - q) * n);
    }
  }

  class WorkerRegistry {
    var workers: map<WorkerId, Worker>
    const ttl: int

    ghost predicate Valid()
      reads this
    {
      forall id :: id in workers ==> workers[id].id == id
    }

    ghost function Channels(): map<WorkerId, Channel>
      reads this
    {
      map id | id in workers :: workers[id].send
    }

    constructor (ttl: int)
      ensures Valid() && Channels() == map[] && this.ttl == if ttl <= 0 then 6000 else ttl
    {
      this.ttl := if ttl <= 0 then 6000 else ttl;
      workers := map[];
    }

    method Add(id: WorkerId, region: string, cpuCores: int, supported: seq<Protocol>, send: Channel, now: int)
      requires Valid()
      modifies this
      ensures Valid() && Channels() == old(Channels())[id := send]
      ensures workers == old(workers)[id := Worker(id, region, cpuCores, supported, send, NO_STATS, now, now)]
    {
      workers := workers[id := Worker(id, region, cpuCores, supported, send, NO_STATS, now, now)];
    }

    /** Drops the entry only if it still belongs to the caller's channel. */
    method Remove(id: WorkerId, send: Channel) returns (removed: bool)
      requires Valid()
      modifies this
      ensures Valid() && removed == (id in old(workers) && old(workers)[id].send == send)
      ensures workers == if removed then old(workers) - {id} else old(workers)
    {
      if id in workers && workers[id].send == send {
        workers := workers - {id};
        return true;
      }
      return false;
    }

    /** A heartbeat refreshes an entry's load and liveness, never its ownership. */
    method Touch(id: WorkerId, stats: Stats, now: int)
      requires Valid()
      modifies this
      ensures Valid() && Channels() == old(Channels())
      ensures workers.Keys == old(workers.Keys)
      ensures id in workers ==> workers == old(workers)[id := old(workers[id]).(lastSeen := now, stats := stats)]
      ensures id !in workers ==> workers == old(workers)
    {
      if id in workers {
        workers := workers[id := workers[id].(lastSeen := now, stats := stats)];
      }
    }

    /** Every eligible worker, once, in the arbitrary order Go visits a map. */
    method Available(proto: Protocol, cpuMax: real, memMax: real, now: int) returns (out: seq<Worker>)
      requires Valid()
      ensures NoDup(out)
      ensures forall w :: w in out <==>
                w.id in workers && workers[w.id] == w && Eligible(w, proto, cpuMax, memMax, now, ttl)
    {
      out := [];
      var rest := workers.Keys;
      while rest != {}
        invariant rest <= workers.Keys && NoDup(out)
        invariant forall w :: w in out <==>
                    w.id in workers && w.id !in rest && workers[w.id] == w
                    && Eligible(w, proto, cpuMax, memMax, now, ttl)
        decreases |rest|
      {
        var id := PickOne(rest);
        rest := rest - {id};
        var w := workers[id];
        if now - w.lastSeen > ttl {
          continue;
        }
        if proto != UNSPECIFIED && proto !in w.supported {
          continue;
        }
        if cpuMax > 0.0 && CpuUtilization(w) >= cpuMax {
          continue;
        }
        if memMax > 0.0 && MemUtilization(w) >= memMax {
          continue;
        }
        out := out + [w];
      }
    }
  }

  // -------------------------------------------------- streams coming and going

  /** What worker streams do to the registry: register an id on their channel, or tear down. */
  datatype StreamEvent = Register(stream: Channel, id: WorkerId) | Teardown(stream: Channel)

  /** `entries` is the registry; `owned` is each stream's own workerID variable. */
  datatype Streams = Streams(entries: map<WorkerId, Channel>, owned: map<Channel, WorkerId>)

  function After(events: seq<StreamEvent>): Streams {
    if events == [] then Streams(map[], map[])
    else
      var s := After(events[..|events| - 1]);
      match events[|events| - 1]
      case Register(c, id) => Streams(s.entries[id := c], s.owned[c := id])
      case Teardown(c) =>
        var id := if c in s.owned then s.owned[c] else "";
        if id != "" && id in s.entries && s.entries[id] == c
        then Streams(s.entries - {id}, s.owned)
        else s
  }

  /** The id a stream registered last, read off the history; "" before its first. */
  function LastId(events: seq<StreamEvent>, c: Channel): WorkerId {
    if events == [] then ""
    else
      var last := events[|events| - 1];
      if last.Register? && last.stream == c then last.id else LastId(events[..|events| - 1], c)
  }

  lemma {:induction false} OwnedIsLastId(events: seq<StreamEvent>, c: Channel)
    ensures LastId(events, c) == (if c in After(events).owned then After(events).owned[c] else "")
  {
    if events != [] {
      OwnedIsLastId(events[..|events| - 1], c);
    }
  }

  /** Event j takes id away from stream c: somebody registers it, or c goes while it is c's last id. */
  ghost predicate TakesAway(events: seq<StreamEvent>, j: int, c: Channel, id: WorkerId)
    requires 0 <= j < |events|
  {
    || (events[j].Register? && events[j].id == id)
    || (events[j] == Teardown(c) && id != "" && LastId(events[..j], c) == id)
  }

  ghost predicate KeptSince(events: seq<StreamEvent>, i: int, c: Channel, id: WorkerId)
    requires 0 <= i < |events|
  {
    events[i] == Register(c, id) && forall j :: i < j < |events| ==> !TakesAway(events, j, c, id)
  }

  /** Stream c registered id at some point, and nothing has taken it away since. */
  ghost predicate Keeps(events: seq<StreamEvent>, c: Channel, id: WorkerId) {
    exists i :: 0 <= i < |events| && KeptSince(events, i, c, id)
  }

  lemma TakesAwayInFront(events: seq<StreamEvent>, j: int, c: Channel, id: WorkerId)
    requires 0 <= j < |events| - 1
    ensures TakesAway(events, j, c, id) <==> TakesAway(events[..|events| - 1], j, c, id)
  {
    assert events[..|events| - 1][..j] == events[..j];
  }

  /** How keeping an id evolves with the last event, independently of the registry. */
  lemma KeepsStep(events: seq<StreamEvent>, c: Channel, id: WorkerId)
    requires events != []
    ensures var n := |events| - 1;
            Keeps(events, c, id) <==>
              events[n] == Register(c, id) || (Keeps(events[..n], c, id) && !TakesAway(events, n, c, id))
  {
    var n := |events| - 1;
    var front := events[..n];
    forall j | 0 <= j < n ensures TakesAway(events, j, c, id) <==> TakesAway(front, j, c, id) {
      TakesAwayInFront(events, j, c, id);
    }
    if Keeps(events, c, id) {
      var i :| 0 <= i < |events| && KeptSince(events, i, c, id);
      if i < n {
        assert KeptSince(front, i, c, id);
      }
    }
    if events[n] == Register(c, id) {
      assert KeptSince(events, n, c, id);
    } else if Keeps(front, c, id) && !TakesAway(events, n, c, id) {
      var i :| 0 <= i < |front| && KeptSince(front, i, c, id);
      assert KeptSince(events, i, c, id);
    }
  }

  ghost predicate Maps(events: seq<StreamEvent>, c: Channel, id: WorkerId) {
    id in After(events).entries && After(events).entries[id] == c
  }

  /**
   What the registry holds after any interleaving of registrations and teardowns by any
   streams, however many ids each registers: id maps to c exactly if c registered it and since
   then nobody registered it again and c did not go away while it was c's last id.
   */
  lemma {:induction false} EntryIffKept(events: seq<StreamEvent>, c: Channel, id: WorkerId)
    ensures Maps(events, c, id) <==> Keeps(events, c, id)
  {
    if events != [] {
      var n := |events| - 1;
      EntryIffKept(events[..n], c, id);
      OwnedIsLastId(events[..n], events[n].stream);
      KeepsStep(events, c, id);
    }
  }

  lemma LastIdBeforeTeardown(events: seq<StreamEvent>, c: Channel)
    ensures LastId(events + [Teardown(c)], c) == LastId(events, c)
    ensures After(events + [Teardown(c)])
         == var s, id := After(events), LastId(events, c);
            if id != "" && Maps(events, c, id) then Streams(s.entries - {id}, s.owned) else s
  {
    assert (events + [Teardown(c)])[..|events|] == events;
    OwnedIsLastId(events, c);
  }

  /** A teardown changes nothing exactly if the stream has lost its last id, or never had one. */
  lemma TeardownIsNoOpIff(events: seq<StreamEvent>, c: Channel)
    ensures After(events + [Teardown(c)]).entries == After(events).entries <==>
              LastId(events, c) == "" || !Keeps(events, c, LastId(events, c))
  {
    LastIdBeforeTeardown(events, c);
    EntryIffKept(events, c, LastId(events, c));
  }

  /**
   A teardown leaves an entry of the stream behind exactly if the stream still keeps an id
   other than the one it registered last (or the empty id, which is never removed).
   */
  lemma TeardownLeaksIff(events: seq<StreamEvent>, c: Channel)
    ensures (exists id :: Maps(events + [Teardown(c)], c, id)) <==>
              exists id :: Keeps(events, c, id) && (id != LastId(events, c) || id == "")
  {
    LastIdBeforeTeardown(events, c);
    forall id ensures Maps(events + [Teardown(c)], c, id) <==> Keeps(events, c, id) && (id != LastId(events, c) || id == "") {
      EntryIffKept(events, c, id);
    }
  }

  // --------------------------------------------- the promise, and when it is kept

  ghost predicate LatestFor(events: seq<StreamEvent>, i: int, c: Channel, id: WorkerId)
    requires 0 <= i < |events|
  {
    events[i] == Register(c, id) && forall j :: i < j < |events| && events[j].Register? ==> events[j].id != id
  }

  ghost predicate GoneSince(events: seq<StreamEvent>, i: int, c: Channel) {
    exists j :: 0 <= i < j < |events| && events[j] == Teardown(c)
  }

  /** Whenever stream c went away after event i, its last id was not this one (or this one is empty). */
  ghost predicate OnlyWithAnother(events: seq<StreamEvent>, i: int, c: Channel, id: WorkerId) {
    forall j :: 0 <= i < j < |events| && events[j] == Teardown(c) ==> id == "" || LastId(events[..j], c) != id
  }

  /** Stream c made the most recent registration of id and has not been torn down since. */
  ghost predicate Holds(events: seq<StreamEvent>, c: Channel, id: WorkerId) {
    exists i :: 0 <= i < |events| && LatestFor(events, i, c, id) && !GoneSince(events, i, c)
  }

  /**
   Stream c made the most recent registration of id and has been torn down since, but each
   time after registering some other id (or id is empty).
   */
  ghost predicate LeftBehind(events: seq<StreamEvent>, c: Channel, id: WorkerId) {
    exists i ::
      0 <= i < |events| && LatestFor(events, i, c, id) && GoneSince(events, i, c) && OnlyWithAnother(events, i, c, id)
  }

  lemma KeptIsLatest(events: seq<StreamEvent>, i: int, c: Channel, id: WorkerId)
    requires 0 <= i < |events|
    ensures KeptSince(events, i, c, id) <==> LatestFor(events, i, c, id) && OnlyWithAnother(events, i, c, id)
  {
    if KeptSince(events, i, c, id) {
      forall j | i < j < |events|
        ensures events[j].Register? ==> events[j].id != id
        ensures events[j] == Teardown(c) ==> id == "" || LastId(events[..j], c) != id
      {
        assert !TakesAway(events, j, c, id);
      }
    }
  }

  lemma LatestIsUnique(events: seq<StreamEvent>, i: int, k: int, c: Channel, id: WorkerId)
    requires 0 <= i < |events| && 0 <= k < |events|
    requires LatestFor(events, i, c, id) && LatestFor(events, k, c, id)
    ensures i == k
  {
  }

  lemma KeepsIsHoldsOrLeftBehind(events: seq<StreamEvent>, c: Channel, id: WorkerId)
    ensures Keeps(events, c, id) <==> Holds(events, c, id) || LeftBehind(events, c, id)
    ensures !(Holds(events, c, id) && LeftBehind(events, c, id))
  {
    forall i | 0 <= i < |events|
      ensures KeptSince(events, i, c, id) <==> LatestFor(events, i, c, id) && OnlyWithAnother(events, i, c, id)
    {
      KeptIsLatest(events, i, c, id);
    }
    if Holds(events, c, id) {
      var i :| 0 <= i < |events| && LatestFor(events, i, c, id) && !GoneSince(events, i, c);
      assert KeptSince(events, i, c, id);
      forall k | 0 <= k < |events| && LatestFor(events, k, c, id) ensures k == i {
        LatestIsUnique(events, i, k, c, id);
      }
    }
  }

  /**
   The registry promises that an id maps to the channel of its most recent registration until
   that very stream tears down. For a stream and an id it does so exactly if the stream did not
   leave the id behind; then, and only then, does the entry outlive the stream.
   */
  lemma ReconnectSafeIff(events: seq<StreamEvent>, c: Channel, id: WorkerId)
    ensures (Maps(events, c, id) <==> Holds(events, c, id)) <==> !LeftBehind(events, c, id)
  {
    EntryIffKept(events, c, id);
    KeepsIsHoldsOrLeftBehind(events, c, id);
  }

  /** Each stream registers a single id, not the empty one. */
  ghost predicate OneIdEach(events: seq<StreamEvent>) {
    && (forall i :: 0 <= i < |events| && events[i].Register? ==> events[i].id != "")
    && (forall i, j :: 0 <= i < j < |events| && events[i].Register? && events[j].Register? ==>
          events[i].stream == events[j].stream ==> events[i].id == events[j].id)
  }

  lemma {:induction false} LastIdWasRegistered(events: seq<StreamEvent>, c: Channel, i: nat)
    requires i < |events| && events[i].Register? && events[i].stream == c
    ensures exists k :: 0 <= k < |events| && events[k] == Register(c, LastId(events, c))
  {
    var n := |events| - 1;
    if events[n].Register? && events[n].stream == c {
      assert events[n] == Register(c, LastId(events, c));
    } else {
      LastIdWasRegistered(events[..n], c, i);
      var k :| 0 <= k < n && events[..n][k] == Register(c, LastId(events[..n], c));
      assert events[k] == Register(c, LastId(events, c));
    }
  }

  /** Reconnect safety as the streams of real workers see it, each with an id of its own. */
  lemma ReconnectSafe(events: seq<StreamEvent>, c: Channel, id: WorkerId)
    ensures OneIdEach(events) ==> (Maps(events, c, id) <==> Holds(events, c, id))
  {
    ReconnectSafeIff(events, c, id);
    if OneIdEach(events) && LeftBehind(events, c, id) {
      var i :| 0 <= i < |events| && LatestFor(events, i, c, id) && GoneSince(events, i, c) && OnlyWithAnother(events, i, c, id);
      var j :| i < j < |events| && events[j] == Teardown(c);
      LastIdWasRegistered(events[..j], c, i);
      var k :| 0 <= k < j && events[..j][k] == Register(c, LastId(events[..j], c));
      OnlyOneId(events, c, i, k);
      assert false;
    }
  }

  lemma OnlyOneId(events: seq<StreamEvent>, c: Channel, i: nat, k: nat)
    requires OneIdEach(events) && i < |events| && k < |events|
    requires events[i].Register? && events[k].Register? && events[i].stream == events[k].stream == c
    ensures events[i].id == events[k].id != ""
  {
  }

  /** A stream that registers two ids and goes away leaves the first behind, whatever the ids. */
  lemma SecondIdLeaks(c: Channel, first: WorkerId, second: WorkerId)
    requires first != second
    ensures var events := [Register(c, first), Register(c, second), Teardown(c)];
            Maps(events, c, first) && !Holds(events, c, first)
  {
    var events := [Register(c, first), Register(c, second)];
    assert events[0] == Register(c, first) && events[1] == Register(c, second);
    assert KeptSince(events, 0, c, first);
    var all := [Register(c, first), Register(c, second), Teardown(c)];
    assert all == events + [Teardown(c)] && all[2] == Teardown(c);
    LastIdBeforeTeardown(events, c);
    EntryIffKept(events, c, first);
  }
}
