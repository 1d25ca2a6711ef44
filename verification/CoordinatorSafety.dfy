/**
 What every interleaving of the coordinator's critical sections keeps: slots are accounted
 for, queued runs are started once and never lost, verdicts only climb.
 */
module CoordinatorSafety {
  import opened Collections
  import opened LoadShape
  import opened Coordinator

  ghost function Held(runs: map<RunId, RunState>): set<RunId> {
    set id | id in runs && runs[id].slotHeld
  }

  lemma HeldUpdate(runs: map<RunId, RunState>, id: RunId, r: RunState)
    ensures Held(runs[id := r]) == if r.slotHeld then Held(runs) + {id} else Held(runs) - {id}
    ensures |Held(runs[id := r])|
         == |Held(runs)| + (if r.slotHeld then 1 else 0) - (if id in runs && runs[id].slotHeld then 1 else 0)
  {
    var now := Held(runs[id := r]);
    assert now == if r.slotHeld then Held(runs) + {id} else Held(runs) - {id};
    assert id in Held(runs) ==> |Held(runs) - {id}| == |Held(runs)| - 1;
    assert id !in Held(runs) ==> Held(runs) - {id} == Held(runs);
  }

  // ------------------------------------------- with no assumption on the events

  ghost predicate SlotSound(r: RunState) {
    (r.status == Running ==> r.slotHeld) && (r.slotHeld ==> r.dispatched && r.endedAt.None?)
  }

  ghost predicate Accounted(s: State) {
    && (forall id :: id in s.runs ==> SlotSound(s.runs[id]))
    && s.running >= |Held(s.runs)|
  }

  lemma DispatchAccounted(s: State, req: Request, p: Poll, now: Time)
    requires Accounted(s)
    ensures Accounted(Dispatch(s, req, p, now).0)
  {
    HeldUpdate(s.runs, req.runId, Launched(req, Takers(PickWorkers(p.candidates, req.desired), p.full), now));
  }

  lemma {:induction false} DrainAccounted(s: State, world: World, now: Time)
    requires Accounted(s)
    ensures Accounted(Drain(s, world, now))
    decreases |s.queue|
  {
    if !(s.queue == [] || s.running >= s.maxRuns || !world(|s.queue|).eligible) {
      var popped := s.(queue := s.queue[1..]);
      var (s', out) := Dispatch(popped, s.queue[0], world(|s.queue|), now);
      DispatchAccounted(popped, s.queue[0], world(|s.queue|), now);
      if out.Dispatched? {
        DrainAccounted(s', world, now);
      }
    }
  }

  lemma FinalizeAccounted(s: State, id: RunId, fallback: Status, world: World, now: Time)
    requires Accounted(s) && id in s.runs && fallback != Running
    ensures Accounted(Finalize(s, id, fallback, world, now))
  {
    var r := s.runs[id];
    if r.endedAt.None? {
      var ended := r.(status := if r.status == Running then fallback else r.status,
                      endedAt := Some(now), slotHeld := false);
      HeldUpdate(s.runs, id, ended);
      var s' := s.(runs := s.runs[id := ended]);
      if r.slotHeld {
        DrainAccounted(s'.(running := s.running - 1), world, now);
      }
    }
  }

  /** Rewriting one entry without touching its slot keeps the books. */
  lemma AmendAccounted(s: State, id: RunId, r: RunState)
    requires Accounted(s) && id in s.runs && SlotSound(r) && r.slotHeld == s.runs[id].slotHeld
    ensures Accounted(s.(runs := s.runs[id := r]))
  {
    HeldUpdate(s.runs, id, r);
  }

  lemma {:induction false} RehydrateAccounted(s: State, worker: WorkerId, active: seq<RunId>, now: Time)
    requires Accounted(s)
    ensures Accounted(Rehydrate(s, worker, active, now))
    decreases |active|
  {
    if active != [] {
      var s' := RehydrateOne(s, worker, active[0], now);
      HeldUpdate(s.runs, active[0], s'.runs[active[0]]);
      RehydrateAccounted(s', worker, active[1..], now);
    }
  }

  lemma ScanAccounted(s: State, present: set<WorkerId>, now: Time)
    requires Accounted(s)
    ensures Accounted(Scan(s, present, now))
  {
    assert Held(Scan(s, present, now).runs) == Held(s.runs);
  }

  lemma StartAccounted(s: State, req: Request, p: Poll, now: Time)
    requires Accounted(s)
    ensures Accounted(StartRun(s, req, p, now).0)
  {
    DispatchAccounted(s, req, p, now);
    HeldUpdate(s.runs, req.runId, Waiting(req));
  }

  lemma EndAccounted(s: State, id: RunId, r: RunState, fallback: Status, world: World, now: Time)
    requires Accounted(s) && id in s.runs && SlotSound(r) && r.slotHeld == s.runs[id].slotHeld && fallback != Running
    ensures var s' := s.(runs := s.runs[id := r]);
            Accounted(s') && Accounted(Finalize(s', id, fallback, world, now))
  {
    AmendAccounted(s, id, r);
    FinalizeAccounted(s.(runs := s.runs[id := r]), id, fallback, world, now);
  }

  lemma StepAccounted(s: State, e: Entry)
    requires Accounted(s)
    ensures Accounted(Step(s, e))
  {
    match e.event
    case Start(req, poll) => StartAccounted(s, req, poll, e.now);
    case Register(worker, active) => RehydrateAccounted(s, worker, active, e.now);
    case Admit(world) => DrainAccounted(s, world, e.now);
    case Finished(worker, run, drops, world) =>
      if run in s.runs {
        EndAccounted(s, run, Reported(s.runs[run], worker, drops), Completed, world, e.now);
      }
    case Stop(run) =>
      if run in s.runs {
        AmendAccounted(s, run, StopVerdict(s, run, e.now).runs[run]);
      }
    case Trip(run, reason) =>
      if run in s.runs {
        AmendAccounted(s, run, s.runs[run].(status := Aborted, reason := reason));
      }
    case Force(run, reason, world) =>
      if run in s.runs {
        var r := s.runs[run];
        EndAccounted(s, run, r.(reason := if r.reason == "" then reason else r.reason), Aborted, world, e.now);
      }
    case Reap(present) => ScanAccounted(s, present, e.now);
    case Limit(_) =>
  }

  /**
   In every reachable state, whatever the events and their order, the slot counter covers
   the runs holding a slot, and a run shown as RUNNING holds one and has not ended.
   */
  lemma {:induction false} SlotsAlwaysCovered(states: seq<State>, log: seq<Entry>, i: nat)
    requires Trace(states, log) && i < |states|
    ensures states[i].running >= |Held(states[i].runs)| >= 0
    ensures forall id :: id in states[i].runs && states[i].runs[id].status == Running ==>
              states[i].runs[id].slotHeld && states[i].runs[id].endedAt.None?
    ensures Accounted(states[i])
  {
    if i == 0 {
      assert Held(states[0].runs) == {};
    } else {
      SlotsAlwaysCovered(states, log, i - 1);
      StepAccounted(states[i - 1], log[i - 1]);
    }
  }

  // ------------------------------------------------------------- without overlap

  ghost predicate InQueue(queue: seq<Request>, id: RunId) {
    exists k :: 0 <= k < |queue| && queue[k].runId == id
  }

  /**
   No worker registers a run whose id is still queued, and the breaker only speaks for runs
   that were dispatched (its callback belongs to their aggregator).
   */
  ghost predicate NoOverlap(s: State, e: Entry) {
    match e.event
    case Register(_, active) => forall id :: id in active ==> !InQueue(s.queue, id)
    case Trip(run, _) => run in s.runs ==> s.runs[run].dispatched
    case _ => true
  }

  ghost predicate OrderlyTrace(states: seq<State>, log: seq<Entry>) {
    Trace(states, log) && forall i :: 0 <= i < |log| ==> NoOverlap(states[i], log[i])
  }

  ghost predicate RunFit(r: RunState) {
    && SlotSound(r)
    && (r.dispatched <==> r.status != Queued)
    && (r.dispatched ==> (r.slotHeld <==> r.endedAt.None?))
  }

  ghost predicate QueueFit(queue: seq<Request>, runs: map<RunId, RunState>) {
    && (forall i, j :: 0 <= i < j < |queue| ==> queue[i].runId != queue[j].runId)
    && (forall k :: 0 <= k < |queue| ==> queue[k].runId in runs && !runs[queue[k].runId].dispatched)
  }

  /** Every assignment went to a worker of a dispatched run, and at most one to each. */
  ghost predicate SentFit(sent: seq<Assignment>, runs: map<RunId, RunState>) {
    && (forall k :: 0 <= k < |sent| ==>
          sent[k].runId in runs && runs[sent[k].runId].dispatched && sent[k].worker in runs[sent[k].runId].crew)
    && (forall i, j :: 0 <= i < j < |sent| ==> sent[i].runId == sent[j].runId ==> sent[i].worker != sent[j].worker)
  }

  /** `loose` names the run, if any, that has been taken off the queue and not yet started. */
  ghost predicate Fit(s: State, loose: Option<RunId>) {
    && (forall id :: id in s.runs ==> RunFit(s.runs[id]))
    && s.running == |Held(s.runs)|
    && QueueFit(s.queue, s.runs)
    && (forall id :: id in s.runs && !s.runs[id].dispatched ==> InQueue(s.queue, id) || loose == Some(id))
    && SentFit(s.sent, s.runs)
  }

  ghost predicate Orderly(s: State) {
    Fit(s, None)
  }

  function Rank(st: Status): nat {
    match st
    case Queued => 0
    case Running => 1
    case Completed => 2
    case Aborted => 3
  }

  /** How a run may change: verdicts climb, a start is final, an end is final. */
  ghost predicate Evolves(r: RunState, r': RunState) {
    && Rank(r.status) <= Rank(r'.status)
    && (r.dispatched ==> r'.dispatched && r.crew <= r'.crew)
    && (r.dispatched && r.endedAt.Some? ==> r'.endedAt == r.endedAt && !r'.slotHeld)
  }

  ghost predicate Advances(s: State, s': State) {
    && (forall id :: id in s.runs ==> id in s'.runs && Evolves(s.runs[id], s'.runs[id]))
    && s.sent <= s'.sent
    && (forall k :: |s.sent| <= k < |s'.sent| ==>
          s'.sent[k].runId in s.runs ==> !s.runs[s'.sent[k].runId].dispatched)
  }

  lemma AdvancesTransitive(a: State, b: State, c: State)
    requires Advances(a, b) && Advances(b, c)
    ensures Advances(a, c)
  {
    forall k | |a.sent| <= k < |c.sent|
      ensures c.sent[k].runId in a.runs ==> !a.runs[c.sent[k].runId].dispatched
    {
      if k < |b.sent| {
        assert c.sent[k] == b.sent[k];
      }
    }
  }

  ghost predicate OneEach(messages: seq<Assignment>) {
    forall i, j :: 0 <= i < j < |messages| ==> messages[i].worker != messages[j].worker
  }

  lemma {:induction false} AcceptedFit(offers: seq<Assignment>, full: set<WorkerId>)
    requires OneEach(offers)
    ensures forall a :: a in Accepted(offers, full) <==> a in offers && a.worker !in full
    ensures OneEach(Accepted(offers, full))
  {
    if offers != [] {
      var front, last := offers[..|offers| - 1], offers[|offers| - 1];
      AcceptedFit(front, full);
      assert offers == front + [last];
      var got := Accepted(front, full);
      forall i | 0 <= i < |got| ensures got[i].worker != last.worker {
        assert got[i] in front;
      }
      assert Accepted(offers, full) == got || Accepted(offers, full) == got + [last];
    }
  }

  /** Starting a run that was not yet started: it takes a slot, and assignments go out for it. */
  lemma LaunchFit(s: State, id: RunId, r: RunState, more: seq<Assignment>)
    requires Fit(s, Some(id)) && !InQueue(s.queue, id) && (id in s.runs ==> !s.runs[id].dispatched)
    requires RunFit(r) && r.status == Running && OneEach(more)
    requires forall k :: 0 <= k < |more| ==> more[k].runId == id && more[k].worker in r.crew
    ensures var s' := s.(runs := s.runs[id := r], running := s.running + 1, sent := s.sent + more);
            Orderly(s') && Advances(s, s')
  {
    HeldUpdate(s.runs, id, r);
    SentExtends(s.sent, more, s.runs, id, r);
    assert forall k :: 0 <= k < |s.queue| ==> s.queue[k].runId != id;
  }

  lemma DispatchFit(s: State, req: Request, p: Poll, now: Time)
    requires Fit(s, Some(req.runId)) && !InQueue(s.queue, req.runId)
    requires req.runId in s.runs ==> !s.runs[req.runId].dispatched
    requires Dispatch(s, req, p, now).1.Dispatched?
    ensures Orderly(Dispatch(s, req, p, now).0) && Advances(s, Dispatch(s, req, p, now).0)
  {
    var workers := PickWorkers(p.candidates, req.desired);
    var offers := Offers(req, workers);
    AcceptedFit(offers, p.full);
    var more := Accepted(offers, p.full);
    forall k | 0 <= k < |more| ensures more[k].runId == req.runId && more[k].worker in Takers(workers, p.full) {
      assert more[k] in offers;
    }
    LaunchFit(s, req.runId, Launched(req, Takers(workers, p.full), now), more);
  }

  lemma SentExtends(sent: seq<Assignment>, more: seq<Assignment>, runs: map<RunId, RunState>, id: RunId, r: RunState)
    requires SentFit(sent, runs) && r.dispatched && (id in runs ==> !runs[id].dispatched)
    requires forall k :: 0 <= k < |more| ==> more[k].runId == id && more[k].worker in r.crew
    requires OneEach(more)
    ensures SentFit(sent + more, runs[id := r])
  {
  }

  lemma {:induction false} DrainFit(s: State, world: World, now: Time)
    requires Orderly(s)
    ensures Orderly(Drain(s, world, now)) && Advances(s, Drain(s, world, now))
    decreases |s.queue|
  {
    if !(s.queue == [] || s.running >= s.maxRuns || !world(|s.queue|).eligible) {
      var req := s.queue[0];
      var popped := s.(queue := s.queue[1..]);
      PopFit(s);
      var (s', out) := Dispatch(popped, req, world(|s.queue|), now);
      if out.Dispatched? {
        DispatchFit(popped, req, world(|s.queue|), now);
        DrainFit(s', world, now);
        AdvancesTransitive(s, s', Drain(s', world, now));
      } else {
        assert [req] + s.queue[1..] == s.queue;
      }
    }
  }

  lemma PopFit(s: State)
    requires Orderly(s) && s.queue != []
    ensures Fit(s.(queue := s.queue[1..]), Some(s.queue[0].runId))
    ensures !InQueue(s.queue[1..], s.queue[0].runId)
  {
    forall id | id in s.runs && !s.runs[id].dispatched
      ensures InQueue(s.queue[1..], id) || Some(s.queue[0].runId) == Some(id)
    {
      var k :| 0 <= k < |s.queue| && s.queue[k].runId == id;
      if k > 0 {
        assert s.queue[1..][k - 1].runId == id;
      }
    }
  }

  /** Rewriting a dispatched run's entry without restarting it. */
  lemma AmendFit(s: State, id: RunId, r: RunState, running: int)
    requires Orderly(s) && id in s.runs && RunFit(r) && Evolves(s.runs[id], r)
    requires r.dispatched == s.runs[id].dispatched && s.runs[id].crew <= r.crew
    requires running == s.running + (if r.slotHeld then 1 else 0) - (if s.runs[id].slotHeld then 1 else 0)
    ensures var s' := s.(runs := s.runs[id := r], running := running);
            Orderly(s') && Advances(s, s')
  {
    HeldUpdate(s.runs, id, r);
  }

  lemma FinalizeFit(s: State, id: RunId, fallback: Status, world: World, now: Time)
    requires Orderly(s) && id in s.runs && Rank(fallback) > Rank(Running)
    ensures Orderly(Finalize(s, id, fallback, world, now)) && Advances(s, Finalize(s, id, fallback, world, now))
  {
    var r := s.runs[id];
    if r.endedAt.None? {
      var ended := r.(status := if r.status == Running then fallback else r.status,
                      endedAt := Some(now), slotHeld := false);
      var running := s.running - if r.slotHeld then 1 else 0;
      AmendFit(s, id, ended, running);
      var s' := s.(runs := s.runs[id := ended], running := running);
      if r.slotHeld {
        DrainFit(s', world, now);
        AdvancesTransitive(s, s', Drain(s', world, now));
      }
    }
  }

  lemma FinishedFit(s: State, worker: WorkerId, id: RunId, drops: Drops, world: World, now: Time)
    requires Orderly(s)
    ensures Orderly(WorkerFinished(s, worker, id, drops, world, now)) && Advances(s, WorkerFinished(s, worker, id, drops, world, now))
  {
    if id in s.runs {
      var r := Reported(s.runs[id], worker, drops);
      AmendFit(s, id, r, s.running);
      var s' := s.(runs := s.runs[id := r]);
      if |r.finished| >= |r.crew| {
        FinalizeFit(s', id, Completed, world, now);
        AdvancesTransitive(s, s', Finalize(s', id, Completed, world, now));
      }
    }
  }

  lemma ForceFit(s: State, id: RunId, reason: string, world: World, now: Time)
    requires Orderly(s)
    ensures Orderly(ForceFinalize(s, id, reason, world, now)) && Advances(s, ForceFinalize(s, id, reason, world, now))
  {
    if !(id !in s.runs || s.runs[id].endedAt.Some? || !s.runs[id].slotHeld) {
      var r := s.runs[id].(reason := if s.runs[id].reason == "" then reason else s.runs[id].reason);
      AmendFit(s, id, r, s.running);
      var s' := s.(runs := s.runs[id := r]);
      FinalizeFit(s', id, Aborted, world, now);
      AdvancesTransitive(s, s', Finalize(s', id, Aborted, world, now));
    }
  }

  lemma RehydrateOneFit(s: State, worker: WorkerId, id: RunId, now: Time)
    requires Orderly(s) && !InQueue(s.queue, id)
    ensures Orderly(RehydrateOne(s, worker, id, now)) && Advances(s, RehydrateOne(s, worker, id, now))
  {
    var s' := RehydrateOne(s, worker, id, now);
    if id in s.runs {
      AmendFit(s, id, s'.runs[id], s.running);
    } else {
      HeldUpdate(s.runs, id, s'.runs[id]);
      assert s.sent + [] == s.sent;
      SentExtends(s.sent, [], s.runs, id, s'.runs[id]);
    }
  }

  lemma {:induction false} RehydrateFit(s: State, worker: WorkerId, active: seq<RunId>, now: Time)
    requires Orderly(s) && forall id :: id in active ==> !InQueue(s.queue, id)
    ensures Orderly(Rehydrate(s, worker, active, now)) && Advances(s, Rehydrate(s, worker, active, now))
    decreases |active|
  {
    if active != [] {
      var s' := RehydrateOne(s, worker, active[0], now);
      RehydrateOneFit(s, worker, active[0], now);
      RehydrateFit(s', worker, active[1..], now);
      AdvancesTransitive(s, s', Rehydrate(s', worker, active[1..], now));
    }
  }

  lemma InQueueAppend(queue: seq<Request>, req: Request, id: RunId)
    ensures InQueue(queue + [req], id) <==> InQueue(queue, id) || req.runId == id
  {
    var longer := queue + [req];
    assert longer[|queue|] == req && forall k :: 0 <= k < |queue| ==> longer[k] == queue[k];
  }

  lemma QueueFitAppend(queue: seq<Request>, runs: map<RunId, RunState>, req: Request)
    requires QueueFit(queue, runs) && req.runId !in runs
    ensures QueueFit(queue + [req], runs[req.runId := Waiting(req)])
  {
    var longer, more := queue + [req], runs[req.runId := Waiting(req)];
    forall k | 0 <= k < |longer| ensures longer[k].runId in more && !more[longer[k].runId].dispatched {
      assert k < |queue| ==> longer[k] == queue[k];
    }
  }

  lemma EnqueueFit(s: State, req: Request)
    requires Orderly(s) && req.runId !in s.runs
    ensures var s' := s.(queue := s.queue + [req], runs := s.runs[req.runId := Waiting(req)]);
            Orderly(s') && Advances(s, s')
  {
    var s' := s.(queue := s.queue + [req], runs := s.runs[req.runId := Waiting(req)]);
    HeldUpdate(s.runs, req.runId, Waiting(req));
    QueueFitAppend(s.queue, s.runs, req);
    forall id | id in s'.runs && !s'.runs[id].dispatched ensures InQueue(s'.queue, id) {
      InQueueAppend(s.queue, req, id);
    }
  }

  lemma StartFit(s: State, req: Request, p: Poll, now: Time)
    requires Orderly(s)
    ensures Orderly(StartRun(s, req, p, now).0) && Advances(s, StartRun(s, req, p, now).0)
  {
    if req.runId != "" && req.runId !in s.runs {
      if !(s.running < s.maxRuns && p.eligible) {
        EnqueueFit(s, req);
      } else if Dispatch(s, req, p, now).1.Dispatched? {
        DispatchFit(s, req, p, now);
      }
    }
  }

  lemma ScanFit(s: State, present: set<WorkerId>, now: Time)
    requires Orderly(s)
    ensures Orderly(Scan(s, present, now)) && Advances(s, Scan(s, present, now))
  {
    var s' := Scan(s, present, now);
    assert Held(s'.runs) == Held(s.runs);
    forall id | id in s.runs ensures RunFit(s'.runs[id]) && Evolves(s.runs[id], s'.runs[id]) {
    }
  }

  lemma StepFit(s: State, e: Entry)
    requires Orderly(s) && NoOverlap(s, e)
    ensures Orderly(Step(s, e)) && Advances(s, Step(s, e))
  {
    match e.event
    case Start(req, poll) => StartFit(s, req, poll, e.now);
    case Register(worker, active) => RehydrateFit(s, worker, active, e.now);
    case Admit(world) => DrainFit(s, world, e.now);
    case Finished(worker, run, drops, world) => FinishedFit(s, worker, run, drops, world, e.now);
    case Stop(run) =>
      if run in s.runs {
        AmendFit(s, run, StopVerdict(s, run, e.now).runs[run], s.running);
      }
    case Trip(run, reason) =>
      if run in s.runs {
        AmendFit(s, run, s.runs[run].(status := Aborted, reason := reason), s.running);
      }
    case Force(run, reason, world) => ForceFit(s, run, reason, world, e.now);
    case Reap(present) => ScanFit(s, present, e.now);
    case Limit(_) =>
  }

  lemma {:induction false} RehydrateClaims(s: State, worker: WorkerId, active: seq<RunId>, now: Time, id: RunId)
    requires id in active || (id in s.runs && s.runs[id].dispatched)
    ensures var s' := Rehydrate(s, worker, active, now);
            s'.queue == s.queue && id in s'.runs && s'.runs[id].dispatched
    decreases |active|
  {
    if active != [] {
      RehydrateClaims(RehydrateOne(s, worker, active[0], now), worker, active[1..], now, id);
    }
  }

  /** No weaker assumption would do: a step out of order keeps no orderly state orderly. */
  lemma OrderlyIffNoOverlap(s: State, e: Entry)
    requires Orderly(s)
    ensures Orderly(Step(s, e)) <==> NoOverlap(s, e)
  {
    if NoOverlap(s, e) {
      StepFit(s, e);
    } else if e.event.Register? {
      var id :| id in e.event.active && InQueue(s.queue, id);
      RehydrateClaims(s, e.event.worker, e.event.active, e.now, id);
      var k :| 0 <= k < |s.queue| && s.queue[k].runId == id;
      assert Step(s, e).queue[k].runId == id;
    } else {
      assert !RunFit(Step(s, e).runs[e.event.run]);
    }
  }

  /**
   Without overlap the books balance exactly: the counter equals the number of runs holding
   a slot, queue ids are distinct, a run is QUEUED exactly when it waits in the queue, and
   every run ever accepted is either waiting or was dispatched. So each slot is freed once,
   whatever the order of duplicate Finished messages, stop timers, breaker and watchdog.
   */
  lemma BooksBalance(states: seq<State>, log: seq<Entry>, i: nat)
    requires OrderlyTrace(states, log) && i < |states|
    ensures states[i].running == |Held(states[i].runs)|
    ensures forall id :: id in states[i].runs ==>
              (states[i].runs[id].status == Queued <==> InQueue(states[i].queue, id))
              && (InQueue(states[i].queue, id) <==> !states[i].runs[id].dispatched)
  {
    AlwaysOrderly(states, log, i);
    var s := states[i];
    forall id | id in s.runs && InQueue(s.queue, id) ensures !s.runs[id].dispatched {
      var k :| 0 <= k < |s.queue| && s.queue[k].runId == id;
    }
  }

  lemma {:induction false} AlwaysOrderly(states: seq<State>, log: seq<Entry>, i: nat)
    requires OrderlyTrace(states, log) && i < |states|
    ensures Orderly(states[i])
  {
    if i == 0 {
      assert Held(states[0].runs) == {};
    } else {
      AlwaysOrderly(states, log, i - 1);
      StepFit(states[i - 1], log[i - 1]);
    }
  }

  lemma StandingStill(s: State)
    requires Orderly(s)
    ensures Advances(s, s)
  {
  }

  lemma StepAdvances(states: seq<State>, log: seq<Entry>, i: nat)
    requires OrderlyTrace(states, log) && i < |log|
    ensures Advances(states[i], states[i + 1])
  {
    AlwaysOrderly(states, log, i);
    StepFit(states[i], log[i]);
  }

  lemma {:induction false} HistoryAdvances(states: seq<State>, log: seq<Entry>, i: nat, j: nat)
    requires OrderlyTrace(states, log) && i <= j < |states|
    ensures Advances(states[i], states[j])
    decreases j
  {
    if i == j {
      AlwaysOrderly(states, log, i);
      StandingStill(states[i]);
    } else {
      HistoryAdvances(states, log, i, j - 1);
      StepAdvances(states, log, j - 1);
      AdvancesTransitive(states[i], states[j - 1], states[j]);
    }
  }

  // ------------------------------------------------------------ answers to StartRun

  ghost function Addressees(offers: seq<Assignment>, full: set<WorkerId>): set<WorkerId> {
    set a | a in offers && a.worker !in full :: a.worker
  }

  lemma {:induction false} AcceptedCount(offers: seq<Assignment>, full: set<WorkerId>)
    requires OneEach(offers)
    ensures |Accepted(offers, full)| == |Addressees(offers, full)|
  {
    if offers != [] {
      var front, last := offers[..|offers| - 1], offers[|offers| - 1];
      assert offers == front + [last];
      AcceptedCount(front, full);
      OneAddresseeMore(front, last, full);
    }
  }

  lemma OneAddresseeMore(front: seq<Assignment>, last: Assignment, full: set<WorkerId>)
    requires OneEach(front + [last])
    ensures |Addressees(front + [last], full)| == |Addressees(front, full)| + if last.worker in full then 0 else 1
  {
    var all := front + [last];
    assert last.worker !in Addressees(front, full) by {
      forall a | a in front ensures a.worker != last.worker {
        var i :| 0 <= i < |front| && front[i] == a;
        assert all[i].worker != all[|front|].worker;
      }
    }
    var more := if last.worker in full then {} else {last.worker};
    assert Addressees(all, full) == Addressees(front, full) + more;
  }

  /** A worker's message in a dispatch carries its own slice of the ramp. */
  ghost predicate InItsOwnPlace(a: Assignment, req: Request, workers: seq<WorkerId>) {
    && a.runId == req.runId && 0 <= a.seed < |workers| && workers[a.seed] == a.worker
    && a.ramp == SliceOf(req.ramp, |workers|, a.seed)
  }

  lemma DispatchSends(req: Request, workers: Roster, full: set<WorkerId>)
    ensures var sent := Accepted(Offers(req, workers), full);
            && |sent| == |Takers(workers, full)| && OneEach(sent)
            && (forall a :: a in sent ==> InItsOwnPlace(a, req, workers))
            && (forall w :: w in Takers(workers, full) <==> exists a :: a in sent && a.worker == w)
  {
    var offers := Offers(req, workers);
    AcceptedFit(offers, full);
    AcceptedCount(offers, full);
    var sent := Accepted(offers, full);
    forall w ensures w in Takers(workers, full) <==> exists a :: a in sent && a.worker == w {
      if w in Takers(workers, full) {
        var i :| 0 <= i < |workers| && workers[i] == w;
        assert offers[i] in sent && offers[i].worker == w;
      }
    }
    forall w ensures w in Takers(workers, full) <==> w in Addressees(offers, full) {
      if w in Takers(workers, full) {
        var a :| a in sent && a.worker == w;
        assert a in offers && a.worker !in full;
      }
    }
    assert Takers(workers, full) == Addressees(offers, full);
  }

  /** What each answer to StartRun promises; an error promises that nothing happened. */
  ghost predicate AnswersTruly(s: State, s': State, req: Request, p: Poll, reply: Reply) {
    match reply
    case Started(n) =>
      && req.runId !in s.runs && req.runId in s'.runs && s'.queue == s.queue && s'.running == s.running + 1
      && s.sent <= s'.sent
      && var crew, more := s'.runs[req.runId].crew, s'.sent[|s.sent|..];
         && n == |crew| == |more| && n > 0 && OneEach(more)
         && (forall a :: a in more ==> InItsOwnPlace(a, req, PickWorkers(p.candidates, req.desired)))
         && (forall w :: w in crew <==> exists a :: a in more && a.worker == w)
    case Enqueued(place) =>
      && req.runId !in s.runs && req.runId in s'.runs && s'.running == s.running && s'.sent == s.sent
      && |s'.queue| == place > 0 && s'.queue[place - 1] == req && s'.queue[..place - 1] == s.queue
    case Known(_, _) => s' == s && req.runId in s.runs
    case InvalidArgument => s' == s && req.runId == ""
    case Failed(_) => s' == s && req.runId !in s.runs && forall w :: w in PickWorkers(p.candidates, req.desired) ==> w in p.full
  }

  /** The caller of StartRun is told the truth. */
  lemma StartAnswersTruly(s: State, req: Request, p: Poll, now: Time)
    ensures var (s', reply) := StartRun(s, req, p, now); AnswersTruly(s, s', req, p, reply)
  {
    var (s', reply) := StartRun(s, req, p, now);
    var workers := PickWorkers(p.candidates, req.desired);
    if reply.Started? {
      DispatchSends(req, workers, p.full);
      assert s'.sent[|s.sent|..] == Accepted(Offers(req, workers), p.full);
    } else if reply.Failed? {
      assert forall w :: w in workers && w !in p.full ==> w in Takers(workers, p.full);
    }
  }

  ghost function Durations(ramp: seq<Stage>): seq<int> {
    seq(|ramp|, i requires 0 <= i < |ramp| => ramp[i].durationMs)
  }

  lemma {:induction false} PlannedIsSum(ramp: seq<Stage>)
    ensures RampDurationMs(ramp) == Sum(Durations(ramp))
  {
    if ramp != [] {
      PlannedIsSum(ramp[1..]);
      assert Durations(ramp)[1..] == Durations(ramp[1..]);
    }
  }

  /**
   Which answer a request gets, from what can be seen beforehand. A new one is queued exactly if
   every slot is taken or no worker is eligible; otherwise it is started exactly if one of the
   workers picked for it has room, and fails for one of two reasons if none has.
   */
  lemma StartDecides(s: State, req: Request, p: Poll, now: Time)
    ensures var reply, id, picked := StartRun(s, req, p, now).1, req.runId, PickWorkers(p.candidates, req.desired);
            var admitted := s.running < s.maxRuns && p.eligible;
            && (reply == InvalidArgument <==> id == "")
            && (reply.Known? <==> id != "" && id in s.runs)
            && (reply.Known? ==> reply == Known(|s.runs[id].crew|, s.runs[id].status == Running))
            && (id != "" && id !in s.runs ==>
                  && (reply.Enqueued? <==> !admitted)
                  && (reply.Started? <==> admitted && exists w :: w in picked && w !in p.full)
                  && (reply == Failed(NoHealthyWorkers) <==> admitted && p.candidates == [])
                  && (reply == Failed(BuffersFull) <==> admitted && p.candidates != [] && forall w :: w in picked ==> w in p.full))
  {
    var picked := PickWorkers(p.candidates, req.desired);
    forall w ensures w in Takers(picked, p.full) <==> w in picked && w !in p.full {
    }
    assert p.candidates != [] ==> picked != [] && picked[0] in picked;
  }

  /** What a request that was accepted looks like then; no other run is touched. */
  lemma AcceptedLooksLike(s: State, req: Request, p: Poll, now: Time)
    ensures var (s', reply) := StartRun(s, req, p, now);
            reply.Started? || reply.Enqueued? ==>
              && req.runId in s'.runs && s'.runs == s.runs[req.runId := s'.runs[req.runId]]
              && var r := s'.runs[req.runId];
                 && r.finished == {} && r.endedAt.None? && r.abortAt.None? && r.workersLostAt.None? && r.reason == ""
                 && r.dropped == NO_DROPS && r.plannedMs == Sum(Durations(req.ramp))
                 && if reply.Started? then r.status == Running && r.slotHeld && r.dispatched && r.startedAt == Some(now)
                    else r.status == Queued && !r.slotHeld && !r.dispatched && r.startedAt.None? && r.crew == {}
  {
    PlannedIsSum(req.ramp);
  }

  lemma {:induction false} DrainKeepsIds(s: State, world: World, now: Time)
    ensures s.runs.Keys <= Drain(s, world, now).runs.Keys
    decreases |s.queue|
  {
    if !(s.queue == [] || s.running >= s.maxRuns || !world(|s.queue|).eligible) {
      var (s', out) := Dispatch(s.(queue := s.queue[1..]), s.queue[0], world(|s.queue|), now);
      if out.Dispatched? {
        DrainKeepsIds(s', world, now);
      }
    }
  }

  lemma FinalizeKeepsIds(s: State, id: RunId, fallback: Status, world: World, now: Time)
    requires id in s.runs
    ensures s.runs.Keys <= Finalize(s, id, fallback, world, now).runs.Keys
  {
    var r := s.runs[id];
    var ended := r.(status := if r.status == Running then fallback else r.status,
                    endedAt := Some(now), slotHeld := false);
    DrainKeepsIds(s.(runs := s.runs[id := ended], running := s.running - 1), world, now);
  }

  lemma {:induction false} RehydrateKeepsIds(s: State, worker: WorkerId, active: seq<RunId>, now: Time)
    ensures s.runs.Keys <= Rehydrate(s, worker, active, now).runs.Keys
    decreases |active|
  {
    if active != [] {
      RehydrateKeepsIds(RehydrateOne(s, worker, active[0], now), worker, active[1..], now);
    }
  }

  lemma StepKeepsIds(s: State, e: Entry)
    ensures s.runs.Keys <= Step(s, e).runs.Keys
  {
    match e.event
    case Register(worker, active) => RehydrateKeepsIds(s, worker, active, e.now);
    case Admit(world) => DrainKeepsIds(s, world, e.now);
    case Finished(worker, run, drops, world) =>
      if run in s.runs {
        var r := Reported(s.runs[run], worker, drops);
        FinalizeKeepsIds(s.(runs := s.runs[run := r]), run, Completed, world, e.now);
      }
    case Force(run, reason, world) =>
      if run in s.runs {
        var r := s.runs[run];
        var named := r.(reason := if r.reason == "" then reason else r.reason);
        FinalizeKeepsIds(s.(runs := s.runs[run := named]), run, Aborted, world, e.now);
      }
    case _ =>
  }

  lemma {:induction false} IdsStay(states: seq<State>, log: seq<Entry>, i: nat, j: nat)
    requires Trace(states, log) && i <= j < |states|
    ensures states[i].runs.Keys <= states[j].runs.Keys
    decreases j
  {
    if i < j {
      IdsStay(states, log, i, j - 1);
      StepKeepsIds(states[j - 1], log[j - 1]);
    }
  }

  /**
   StartRun is idempotent over any history, overlap or not: once a request was accepted, no
   later request with its id changes anything, and each is answered from the run's own state.
   */
  lemma ReplaysChangeNothing(states: seq<State>, log: seq<Entry>, i: nat, j: nat, req: Request, again: Request, p: Poll, q: Poll, now: Time)
    requires Trace(states, log) && i < j < |states| && log[i].event == Start(req, p)
    requires var reply := StartRun(states[i], req, p, log[i].now).1; reply.Started? || reply.Enqueued?
    requires again.runId == req.runId
    ensures var (s', reply) := StartRun(states[j], again, q, now);
            && s' == states[j] && req.runId in states[j].runs
            && reply == Known(|states[j].runs[req.runId].crew|, states[j].runs[req.runId].status == Running)
  {
    StartAnswersTruly(states[i], req, p, log[i].now);
    assert req.runId in states[i + 1].runs;
    IdsStay(states, log, i + 1, j);
  }

  /**
   A run's verdict only climbs QUEUED < RUNNING < COMPLETED < ABORTED, ABORTED is absorbing,
   and a dispatched run ends at most once: its end time never changes again.
   */
  lemma VerdictsOnlyClimb(states: seq<State>, log: seq<Entry>, i: nat, j: nat, id: RunId)
    requires OrderlyTrace(states, log) && i <= j < |states| && id in states[i].runs
    ensures id in states[j].runs
    ensures Rank(states[i].runs[id].status) <= Rank(states[j].runs[id].status)
    ensures states[i].runs[id].status == Aborted ==> states[j].runs[id].status == Aborted
    ensures states[i].runs[id].dispatched && states[i].runs[id].endedAt.Some? ==>
              states[j].runs[id].endedAt == states[i].runs[id].endedAt && !states[j].runs[id].slotHeld
  {
    HistoryAdvances(states, log, i, j);
  }

  /**
   Each id is dispatched at most once over a whole history, StartRun replays included: once a
   run is dispatched (or rehydrated), no assignment for it is ever sent again, and no worker
   ever got two assignments for the same run.
   */
  lemma DispatchedAtMostOnce(states: seq<State>, log: seq<Entry>, i: nat, j: nat, id: RunId)
    requires OrderlyTrace(states, log) && i <= j < |states|
    requires id in states[i].runs && states[i].runs[id].dispatched
    ensures states[i].sent <= states[j].sent
    ensures forall k :: |states[i].sent| <= k < |states[j].sent| ==> states[j].sent[k].runId != id
    ensures SentFit(states[j].sent, states[j].runs)
  {
    HistoryAdvances(states, log, i, j);
    AlwaysOrderly(states, log, j);
  }

  /** A stop's timer leaves the run without a slot, for good if it had been dispatched. */
  lemma AfterTheStopTimer(states: seq<State>, log: seq<Entry>, i: nat, j: nat)
    requires OrderlyTrace(states, log) && i < j < |states| && log[i].event.Force?
    ensures var id := log[i].event.run;
            id in states[i].runs ==>
              && id in states[j].runs
              && (if states[i].runs[id].dispatched
                  then states[j].runs[id].endedAt.Some? && !states[j].runs[id].slotHeld
                  else states[i + 1] == states[i] && InQueue(states[i].queue, id))
  {
    var id := log[i].event.run;
    AlwaysOrderly(states, log, i);
    HistoryAdvances(states, log, i, j);
    if id in states[i].runs && states[i].runs[id].dispatched {
      AlwaysOrderly(states, log, i + 1);
      HistoryAdvances(states, log, i + 1, j);
      ForceEnds(states[i], id, log[i].event.reason, log[i].event.world, log[i].now);
    }
  }

  /** Forcing a dispatched run always ends it, unless it had ended already. */
  lemma ForceEnds(s: State, id: RunId, reason: string, world: World, now: Time)
    requires Orderly(s) && id in s.runs && s.runs[id].dispatched
    ensures var s' := ForceFinalize(s, id, reason, world, now);
            id in s'.runs && s'.runs[id].dispatched && !s'.runs[id].slotHeld
            && s'.runs[id].endedAt == (if s.runs[id].endedAt.Some? then s.runs[id].endedAt else Some(now))
            && (s.runs[id].status == Running ==> s'.runs[id].status == Aborted)
            && (s.runs[id].endedAt.None? ==> s'.runs[id].reason == if s.runs[id].reason == "" then reason else s.runs[id].reason)
  {
    var r := s.runs[id];
    if r.endedAt.None? {
      var named := r.(reason := if r.reason == "" then reason else r.reason);
      var ended := named.(status := if r.status == Running then Aborted else r.status,
                          endedAt := Some(now), slotHeld := false);
      var freed := s.(runs := s.runs[id := ended], running := s.running - 1);
      AmendFit(s, id, ended, s.running - 1);
      assert ForceFinalize(s, id, reason, world, now) == Drain(freed, world, now) by {
        assert s.runs[id := named][id := ended] == s.runs[id := ended];
      }
      DrainFit(freed, world, now);
      DrainSparesStarted(freed, world, now, id);
    }
  }

  /** A drain leaves alone whatever was started before, as long as the books are in order. */
  lemma {:induction false} DrainSparesStarted(s: State, world: World, now: Time, id: RunId)
    requires Orderly(s) && id in s.runs && s.runs[id].dispatched
    ensures id in Drain(s, world, now).runs && Drain(s, world, now).runs[id] == s.runs[id]
    decreases |s.queue|
  {
    if !(s.queue == [] || s.running >= s.maxRuns || !world(|s.queue|).eligible) {
      var popped := s.(queue := s.queue[1..]);
      PopFit(s);
      var (s', out) := Dispatch(popped, s.queue[0], world(|s.queue|), now);
      if out.Dispatched? {
        DispatchFit(popped, s.queue[0], world(|s.queue|), now);
        DrainSparesStarted(s', world, now, id);
      }
    }
  }

  /**
   A stop of a RUNNING run is a verdict: ABORTED, stopped by user, in every later state, however
   its workers report. Any other run keeps its verdict and its reason; the time of the first stop
   is noted.
   */
  lemma StopMeansAborted(states: seq<State>, log: seq<Entry>, i: nat, j: nat, id: RunId)
    requires OrderlyTrace(states, log) && i < j < |states| && log[i].event == Stop(id) && id in states[i].runs
    ensures id in states[i + 1].runs && id in states[j].runs
    ensures var r, r' := states[i].runs[id], states[i + 1].runs[id];
            && (r.status == Running ==> states[j].runs[id].status == Aborted && r'.reason == "stopped by user")
            && (r.status != Running ==> r'.status == r.status && r'.reason == r.reason)
            && r'.abortAt == (if r.abortAt.Some? then r.abortAt else Some(log[i].now))
            && r'.crew == r.crew && r'.finished == r.finished && r'.endedAt == r.endedAt && r'.slotHeld == r.slotHeld
    ensures states[i + 1] == states[i].(runs := states[i].runs[id := states[i + 1].runs[id]])
  {
    VerdictsOnlyClimb(states, log, i + 1, j, id);
  }

  /** The breaker's verdict is ABORTED, with its reason, whatever the run's was, and stays. */
  lemma TripMeansAborted(states: seq<State>, log: seq<Entry>, i: nat, j: nat, id: RunId)
    requires OrderlyTrace(states, log) && i < j < |states| && id in states[i].runs
    requires log[i].event.Trip? && log[i].event.run == id
    ensures id in states[i + 1].runs && id in states[j].runs && states[j].runs[id].status == Aborted
    ensures var r, r' := states[i].runs[id], states[i + 1].runs[id];
            r'.reason == log[i].event.reason && r'.endedAt == r.endedAt && r'.slotHeld == r.slotHeld
    ensures states[i + 1] == states[i].(runs := states[i].runs[id := states[i + 1].runs[id]])
  {
    VerdictsOnlyClimb(states, log, i + 1, j, id);
  }

  /**
   A stop and its timer, with anything in between. The stop itself does no more to a queued run
   than note the time; the timer ends the run for good if and only if it is dispatched by then,
   and otherwise changes nothing at all.
   */
  lemma StopEndsIffDispatched(states: seq<State>, log: seq<Entry>, i: nat, j: nat, k: nat, id: RunId)
    requires OrderlyTrace(states, log) && i < j < k < |states| && id in states[i].runs
    requires log[i].event == Stop(id) && log[j].event.Force? && log[j].event.run == id
    ensures id in states[i + 1].runs && id in states[j].runs && id in states[k].runs
    ensures var r, r' := states[i].runs[id], states[i + 1].runs[id];
            !r.dispatched ==> states[i + 1] == states[i].(runs := states[i].runs[id := r.(abortAt := r'.abortAt)])
    ensures states[j].runs[id].dispatched ==> states[k].runs[id].endedAt.Some? && !states[k].runs[id].slotHeld
    ensures !states[j].runs[id].dispatched ==>
              states[j + 1] == states[j] && states[j].runs[id].status == Queued && InQueue(states[j].queue, id)
  {
    AlwaysOrderly(states, log, i);
    HistoryAdvances(states, log, i, i + 1);
    HistoryAdvances(states, log, i, j);
    AlwaysOrderly(states, log, j);
    AfterTheStopTimer(states, log, j, k);
  }

  /** Draining a queue of one that some worker can take is dispatching it. */
  lemma DrainOfOne(s: State, req: Request, world: World, now: Time)
    requires s.queue == [req] && s.running < s.maxRuns && world(1).eligible
    requires Dispatch(s.(queue := []), req, world(1), now).1.Dispatched?
    ensures Drain(s, world, now) == Dispatch(s.(queue := []), req, world(1), now).0
  {
    var s' := Dispatch(s.(queue := []), req, world(1), now).0;
    assert Drain(s', world, now) == s';
  }

  /** What one start of a run by one free worker does. */
  lemma DispatchToOne(s: State, req: Request, w: WorkerId, now: Time)
    ensures var (s', out) := Dispatch(s, req, Poll(true, [w], {}), now);
            && out.Dispatched? && s' == s.(runs := s.runs[req.runId := Launched(req, {w}, now)], running := s.running + 1, sent := s'.sent)
            && |s'.sent| == |s.sent| + 1 && s'.sent[|s.sent|].runId == req.runId
            && s.sent == s'.sent[..|s.sent|]
  {
    var workers := PickWorkers([w], req.desired);
    assert workers == [w] && Takers([w], {}) == {w};
    DispatchSends(req, [w], {});
  }

  /** A request that waits, then a worker that reports it as running. */
  lemma QueuedThenRehydrated(req: Request)
    requires req.runId == "r"
    ensures var s1 := State(map["r" := Waiting(req)], [req], 0, 2, []);
            && Step(Init(2), Entry(0, Start(req, Poll(false, [], {})))) == s1
            && Step(s1, Entry(0, Register("w", ["r"]))) == RehydrateOne(s1, "w", "r", 0)
            && !NoOverlap(s1, Entry(0, Register("w", ["r"])))
  {
    var s1 := State(map["r" := Waiting(req)], [req], 0, 2, []);
    var s2 := RehydrateOne(s1, "w", "r", 0);
    assert Rehydrate(s2, "w", [], 0) == s2;
    assert s1.queue[0].runId == "r" && "r" in ["r"] && InQueue(s1.queue, "r");
  }

  /**
   The case the no-overlap assumption excludes: a history in which a queued run is rehydrated,
   then started a second time, and a slot is lost.
   */
  lemma OverlapStartsTwice() returns (states: seq<State>, log: seq<Entry>)
    ensures Trace(states, log) && |log| == 3 && !NoOverlap(states[1], log[1])
    ensures "r" in states[2].runs && states[2].runs["r"].slotHeld && states[2].sent == []
    ensures |states[3].sent| == 1 && states[3].sent[0].runId == "r"
    ensures states[3].running == |Held(states[3].runs)| + 1
  {
    var req := Request("r", 0, []);
    var roster: Roster := ["w"];
    var world: World := _ => Poll(true, roster, {});
    var s1 := State(map["r" := Waiting(req)], [req], 0, 2, []);
    var s2 := RehydrateOne(s1, "w", "r", 0);
    var s3 := Dispatch(s2.(queue := []), req, world(1), 0).0;
    log := [Entry(0, Start(req, Poll(false, [], {}))), Entry(0, Register("w", ["r"])), Entry(0, Admit(world))];
    states := [Init(2), s1, s2, s3];
    QueuedThenRehydrated(req);
    DispatchToOne(s2.(queue := []), req, "w", 0);
    DrainOfOne(s2, req, world, 0);
    assert Held(s3.runs) == {"r"};
  }
}
