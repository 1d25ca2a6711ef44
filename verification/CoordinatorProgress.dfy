/**
 What the coordinator's steps achieve: draining is first-in first-out and work-conserving,
 completion means that everyone finished, the watchdog reaps exactly the orphans.
 */
module CoordinatorProgress {
  import opened Collections
  import opened LoadShape
  import opened Coordinator
  import opened CoordinatorSafety

  // ------------------------------------------------------------------- draining

  /** Why a drain stops: nothing waits, no slot, nobody eligible, or the head could not be sent. */
  ghost predicate Stuck(s: State, world: World, now: Time) {
    || s.queue == []
    || s.running >= s.maxRuns
    || !world(|s.queue|).eligible
    || !Dispatch(s.(queue := s.queue[1..]), s.queue[0], world(|s.queue|), now).1.Dispatched?
  }

  ghost predicate Started(s: State, id: RunId) {
    id in s.runs && s.runs[id].dispatched
  }

  /** What a drain makes of a run that it starts. */
  ghost predicate JustStarted(r: RunState, now: Time) {
    && r.dispatched && r.slotHeld && r.status == Running && r.startedAt == Some(now) && r.endedAt.None?
    && r.crew != {} && r.finished == {} && r.workersLostAt.None?
    && r.reason == "" && r.abortAt.None? && r.dropped == NO_DROPS
  }

  /**
   A drain starts the first n queued runs and only those, one slot each, never beyond the
   limit, and stops only when stuck; every other run is left alone.
   */
  lemma {:induction false} DrainIsFifo(s: State, world: World, now: Time) returns (n: nat)
    ensures n <= |s.queue|
    ensures var s' := Drain(s, world, now);
            && s'.queue == s.queue[n..]
            && s'.maxRuns == s.maxRuns
            && s'.running == s.running + n
            && (n > 0 ==> s'.running <= s.maxRuns)
            && Stuck(s', world, now)
            && (forall k :: 0 <= k < n ==> s.queue[k].runId in s'.runs && JustStarted(s'.runs[s.queue[k].runId], now))
            && (forall id :: (forall k :: 0 <= k < n ==> s.queue[k].runId != id) ==>
                  (id in s'.runs <==> id in s.runs) && (id in s.runs ==> s'.runs[id] == s.runs[id]))
    decreases |s.queue|
  {
    n := 0;
    if !(s.queue == [] || s.running >= s.maxRuns || !world(|s.queue|).eligible) {
      var (s1, out) := Dispatch(s.(queue := s.queue[1..]), s.queue[0], world(|s.queue|), now);
      if out.Dispatched? {
        var m := DrainIsFifo(s1, world, now);
        n := m + 1;
        DrainOneMore(s, s1, world, now, m);
      } else {
        assert [s.queue[0]] + s.queue[1..] == s.queue;
      }
    }
  }

  lemma DrainOneMore(s: State, s1: State, world: World, now: Time, m: nat)
    requires s.queue != [] && m <= |s1.queue| && s1.queue == s.queue[1..]
    requires s.queue[0].runId in s1.runs && JustStarted(s1.runs[s.queue[0].runId], now)
    requires s1.runs == s.runs[s.queue[0].runId := s1.runs[s.queue[0].runId]]
    requires var s' := Drain(s1, world, now);
             && (forall k :: 0 <= k < m ==> s1.queue[k].runId in s'.runs && JustStarted(s'.runs[s1.queue[k].runId], now))
             && (forall id :: (forall k :: 0 <= k < m ==> s1.queue[k].runId != id) ==>
                   (id in s'.runs <==> id in s1.runs) && (id in s1.runs ==> s'.runs[id] == s1.runs[id]))
    ensures var s' := Drain(s1, world, now);
            && (forall k :: 0 <= k < m + 1 ==> s.queue[k].runId in s'.runs && JustStarted(s'.runs[s.queue[k].runId], now))
            && (forall id :: (forall k :: 0 <= k < m + 1 ==> s.queue[k].runId != id) ==>
                  (id in s'.runs <==> id in s.runs) && (id in s.runs ==> s'.runs[id] == s.runs[id]))
  {
    var s' := Drain(s1, world, now);
    forall k | 0 <= k < m + 1
      ensures s.queue[k].runId in s'.runs && JustStarted(s'.runs[s.queue[k].runId], now)
    {
      var id := s.queue[k].runId;
      if j :| 0 <= j < m && s1.queue[j].runId == id {
        assert s1.queue[j].runId in s'.runs;
      } else {
        assert k == 0 || s1.queue[k - 1].runId == id;
      }
    }
    forall id | forall k :: 0 <= k < m + 1 ==> s.queue[k].runId != id
      ensures (id in s'.runs <==> id in s.runs) && (id in s.runs ==> s'.runs[id] == s.runs[id])
    {
      assert s.queue[0].runId != id;
      forall k | 0 <= k < m ensures s1.queue[k].runId != id {
        assert s1.queue[k] == s.queue[k + 1];
      }
    }
  }

  /** A drain either leaves a run exactly as it was, or starts it from the queue. */
  lemma DrainOnRun(s: State, world: World, now: Time, id: RunId)
    ensures var s' := Drain(s, world, now);
            || (id in s'.runs && JustStarted(s'.runs[id], now) && InQueue(s.queue, id))
            || ((id in s'.runs <==> id in s.runs) && (id in s.runs ==> s'.runs[id] == s.runs[id]))
  {
    var n := DrainIsFifo(s, world, now);
    if k :| 0 <= k < n && s.queue[k].runId == id {
      assert InQueue(s.queue, id);
    }
  }

  // ------------------------------------------------------------------ the limit

  /** The limit in force before step i: the last positive one that was set, else the first one. */
  ghost function LimitSet(first: int, log: seq<Entry>, i: nat): int
    requires i <= |log|
  {
    if i == 0 then first
    else if log[i - 1].event.Limit? && log[i - 1].event.maxRuns > 0 then log[i - 1].event.maxRuns
    else LimitSet(first, log, i - 1)
  }

  lemma FinalizeKeepsLimit(s: State, run: RunId, fallback: Status, world: World, now: Time)
    requires run in s.runs
    ensures Finalize(s, run, fallback, world, now).maxRuns == s.maxRuns
  {
    var r := s.runs[run];
    var ended := r.(status := if r.status == Running then fallback else r.status,
                    endedAt := Some(now), slotHeld := false);
    var n := DrainIsFifo(s.(runs := s.runs[run := ended], running := s.running - 1), world, now);
  }

  lemma {:induction false} RehydrateKeepsLimit(s: State, worker: WorkerId, active: seq<RunId>, now: Time)
    ensures Rehydrate(s, worker, active, now).maxRuns == s.maxRuns
    decreases |active|
  {
    if active != [] {
      RehydrateKeepsLimit(RehydrateOne(s, worker, active[0], now), worker, active[1..], now);
    }
  }

  lemma LimitStep(s: State, e: Entry)
    ensures Step(s, e).maxRuns == if e.event.Limit? && e.event.maxRuns > 0 then e.event.maxRuns else s.maxRuns
  {
    match e.event
    case Register(worker, active) => RehydrateKeepsLimit(s, worker, active, e.now);
    case Admit(world) => var n := DrainIsFifo(s, world, e.now);
    case Finished(worker, run, drops, world) =>
      if run in s.runs {
        FinalizeKeepsLimit(s.(runs := s.runs[run := Reported(s.runs[run], worker, drops)]), run, Completed, world, e.now);
      }
    case Force(run, reason, world) =>
      if run in s.runs {
        var r := s.runs[run];
        var named := r.(reason := if r.reason == "" then reason else r.reason);
        FinalizeKeepsLimit(s.(runs := s.runs[run := named]), run, Aborted, world, e.now);
      }
    case _ =>
  }

  /** In every history the limit in force is the last positive one set, and nothing else moves it. */
  lemma {:induction false} LimitIsLastSet(states: seq<State>, log: seq<Entry>, i: nat)
    requires Trace(states, log) && i < |states|
    ensures states[i].maxRuns == LimitSet(states[0].maxRuns, log, i)
  {
    if i > 0 {
      LimitIsLastSet(states, log, i - 1);
      LimitStep(states[i - 1], log[i - 1]);
    }
  }

  // ------------------------------------------------------- FIFO over a history

  ghost predicate Before(queue: seq<Request>, a: RunId, b: RunId) {
    exists x, y :: 0 <= x < y < |queue| && queue[x].runId == a && queue[y].runId == b
  }

  ghost predicate AllStarted(queue: seq<Request>, n: nat, s: State)
    requires n <= |queue|
  {
    forall k :: 0 <= k < n ==> Started(s, queue[k].runId)
  }

  /** A step takes runs off the queue's front only, each of them started, and may add some at its end. */
  ghost predicate TakesFromFront(queue: seq<Request>, s': State) {
    exists n, more :: 0 <= n <= |queue| && s'.queue == queue[n..] + more && AllStarted(queue, n, s')
  }

  lemma DrainTakesFromFront(s: State, world: World, now: Time)
    ensures TakesFromFront(s.queue, Drain(s, world, now))
  {
    var n := DrainIsFifo(s, world, now);
    var s' := Drain(s, world, now);
    assert s'.queue == s.queue[n..] + [] && AllStarted(s.queue, n, s');
  }

  lemma FinalizeTakesFromFront(s: State, run: RunId, fallback: Status, world: World, now: Time)
    requires run in s.runs
    ensures TakesFromFront(s.queue, Finalize(s, run, fallback, world, now))
  {
    var r, s' := s.runs[run], Finalize(s, run, fallback, world, now);
    if r.endedAt.None? && r.slotHeld {
      var ended := r.(status := if r.status == Running then fallback else r.status,
                      endedAt := Some(now), slotHeld := false);
      DrainTakesFromFront(s.(runs := s.runs[run := ended], running := s.running - 1), world, now);
    } else {
      assert s'.queue == s.queue[0..] + [] && AllStarted(s.queue, 0, s');
    }
  }

  lemma {:induction false} RehydrateKeepsQueue(s: State, worker: WorkerId, active: seq<RunId>, now: Time)
    ensures Rehydrate(s, worker, active, now).queue == s.queue
    decreases |active|
  {
    if active != [] {
      RehydrateKeepsQueue(RehydrateOne(s, worker, active[0], now), worker, active[1..], now);
    }
  }

  lemma StartTakesFromFront(s: State, req: Request, p: Poll, now: Time)
    ensures TakesFromFront(s.queue, StartRun(s, req, p, now).0)
  {
    var s' := StartRun(s, req, p, now).0;
    assert s'.queue == s.queue[0..] + [] || s'.queue == s.queue[0..] + [req];
    assert AllStarted(s.queue, 0, s');
  }

  lemma QueueStep(s: State, e: Entry)
    ensures TakesFromFront(s.queue, Step(s, e))
  {
    match e.event
    case Start(req, poll) => StartTakesFromFront(s, req, poll, e.now);
    case Admit(world) => DrainTakesFromFront(s, world, e.now);
    case Finished(worker, run, drops, world) =>
      if run in s.runs && |Reported(s.runs[run], worker, drops).finished| >= |s.runs[run].crew| {
        FinalizeTakesFromFront(s.(runs := s.runs[run := Reported(s.runs[run], worker, drops)]), run, Completed, world, e.now);
      } else {
        assert Step(s, e).queue == s.queue[0..] + [] && AllStarted(s.queue, 0, Step(s, e));
      }
    case Force(run, reason, world) =>
      if run in s.runs && s.runs[run].endedAt.None? && s.runs[run].slotHeld {
        var r := s.runs[run];
        var named := r.(reason := if r.reason == "" then reason else r.reason);
        FinalizeTakesFromFront(s.(runs := s.runs[run := named]), run, Aborted, world, e.now);
      } else {
        assert Step(s, e).queue == s.queue[0..] + [] && AllStarted(s.queue, 0, Step(s, e));
      }
    case Register(worker, active) =>
      RehydrateKeepsQueue(s, worker, active, e.now);
      assert Step(s, e).queue == s.queue[0..] + [] && AllStarted(s.queue, 0, Step(s, e));
    case _ =>
      assert Step(s, e).queue == s.queue[0..] + [] && AllStarted(s.queue, 0, Step(s, e));
  }

  lemma BeforeOrStarted(queue: seq<Request>, s': State, a: RunId, b: RunId)
    requires TakesFromFront(queue, s') && Before(queue, a, b)
    ensures Before(s'.queue, a, b) || Started(s', a)
  {
    var n, more :| 0 <= n <= |queue| && s'.queue == queue[n..] + more && AllStarted(queue, n, s');
    var x, y :| 0 <= x < y < |queue| && queue[x].runId == a && queue[y].runId == b;
    if x < n {
      assert Started(s', queue[x].runId);
    } else {
      StillBefore(queue, n, more, x, y);
    }
  }

  lemma StillBefore(queue: seq<Request>, n: nat, more: seq<Request>, x: nat, y: nat)
    requires n <= x < y < |queue|
    ensures Before(queue[n..] + more, queue[x].runId, queue[y].runId)
  {
    var rest := queue[n..] + more;
    assert rest[x - n] == queue[x] && rest[y - n] == queue[y];
  }

  lemma {:induction false} BeforeUntilStarted(states: seq<State>, log: seq<Entry>, i: nat, j: nat, a: RunId, b: RunId)
    requires OrderlyTrace(states, log) && i <= j < |states| && Before(states[i].queue, a, b)
    ensures Before(states[j].queue, a, b) || Started(states[j], a)
    decreases j
  {
    if i < j {
      BeforeUntilStarted(states, log, i, j - 1, a, b);
      StepAdvances(states, log, j - 1);
      if Before(states[j - 1].queue, a, b) {
        QueueStep(states[j - 1], log[j - 1]);
        BeforeOrStarted(states[j - 1].queue, states[j], a, b);
      }
    }
  }

  /** First in, first out over a whole history: of two queued runs the earlier is started no later. */
  lemma QueueIsFifo(states: seq<State>, log: seq<Entry>, i: nat, j: nat, a: RunId, b: RunId)
    requires OrderlyTrace(states, log) && i <= j < |states|
    requires Before(states[i].queue, a, b) && Started(states[j], b)
    ensures Started(states[j], a)
  {
    BeforeUntilStarted(states, log, i, j, a, b);
    AlwaysOrderly(states, log, j);
  }

  /** Admission never takes the counter above the limit; only rehydration may exceed it. */
  lemma AdmissionRespectsLimit(s: State, e: Entry)
    requires !e.event.Register?
    ensures Step(s, e).running <= if s.running > s.maxRuns then s.running else s.maxRuns
  {
    match e.event
    case Admit(world) =>
      DrainRespectsLimit(s, world, e.now);
    case Finished(worker, run, drops, world) =>
      if run in s.runs {
        var r := Reported(s.runs[run], worker, drops);
        FinalizeRespectsLimit(s.(runs := s.runs[run := r]), run, Completed, world, e.now);
      }
    case Force(run, reason, world) =>
      if run in s.runs {
        var r := s.runs[run];
        var named := r.(reason := if r.reason == "" then reason else r.reason);
        FinalizeRespectsLimit(s.(runs := s.runs[run := named]), run, Aborted, world, e.now);
      }
    case _ =>
  }

  lemma {:induction false} DrainRespectsLimit(s: State, world: World, now: Time)
    ensures Drain(s, world, now).running <= if s.running > s.maxRuns then s.running else s.maxRuns
    decreases |s.queue|
  {
    if !(s.queue == [] || s.running >= s.maxRuns || !world(|s.queue|).eligible) {
      var (s1, out) := Dispatch(s.(queue := s.queue[1..]), s.queue[0], world(|s.queue|), now);
      if out.Dispatched? {
        DrainRespectsLimit(s1, world, now);
      }
    }
  }

  lemma FinalizeRespectsLimit(s: State, id: RunId, fallback: Status, world: World, now: Time)
    requires id in s.runs
    ensures Finalize(s, id, fallback, world, now).running <= if s.running > s.maxRuns then s.running else s.maxRuns
  {
    var r := s.runs[id];
    var ended := r.(status := if r.status == Running then fallback else r.status,
                    endedAt := Some(now), slotHeld := false);
    DrainRespectsLimit(s.(runs := s.runs[id := ended], running := s.running - 1), world, now);
  }

  /** A slot that comes free is offered to the queue at once: ending a run leaves the queue stuck. */
  lemma FreedSlotIsOffered(s: State, run: RunId, fallback: Status, world: World, now: Time)
    requires run in s.runs && s.runs[run].endedAt.None? && s.runs[run].slotHeld
    ensures Stuck(Finalize(s, run, fallback, world, now), world, now)
  {
    var r := s.runs[run];
    var ended := r.(status := if r.status == Running then fallback else r.status,
                    endedAt := Some(now), slotHeld := false);
    var n := DrainIsFifo(s.(runs := s.runs[run := ended], running := s.running - 1), world, now);
  }

  // ------------------------------------------------------------------- recovery

  /** Reported runs that the coordinator knows nothing about, or has not started. */
  ghost function Unstarted(s: State, active: seq<RunId>): set<RunId> {
    set id | id in active && !Started(s, id)
  }

  lemma {:induction false} RehydrateTakesSlots(s: State, worker: WorkerId, active: seq<RunId>, now: Time)
    ensures var s' := Rehydrate(s, worker, active, now);
            s'.running == s.running + |Unstarted(s, active)| && s'.queue == s.queue && s'.sent == s.sent && s'.maxRuns == s.maxRuns
    decreases |active|
  {
    if active == [] {
      assert Unstarted(s, active) == {};
    } else {
      var s1 := RehydrateOne(s, worker, active[0], now);
      RehydrateTakesSlots(s1, worker, active[1..], now);
      OneUnstartedLess(s, worker, active, now);
    }
  }

  lemma OneUnstartedLess(s: State, worker: WorkerId, active: seq<RunId>, now: Time)
    requires active != []
    ensures |Unstarted(s, active)|
         == |Unstarted(RehydrateOne(s, worker, active[0], now), active[1..])| + if Started(s, active[0]) then 0 else 1
  {
    var s1 := RehydrateOne(s, worker, active[0], now);
    var before, after := Unstarted(s, active), Unstarted(s1, active[1..]);
    assert active == [active[0]] + active[1..];
    if Started(s, active[0]) {
      assert before == after;
    } else {
      assert before == after + {active[0]} && active[0] !in after;
    }
  }

  /**
   Recovery of one run that a worker reports: a started one gains the worker and is otherwise as
   it was; any other is RUNNING from now on with that worker alone and a slot. A run that is not
   reported is untouched.
   */
  lemma {:induction false} RehydrateIs(s: State, worker: WorkerId, active: seq<RunId>, now: Time, id: RunId)
    ensures var s' := Rehydrate(s, worker, active, now);
            if id !in active then (id in s'.runs <==> id in s.runs) && (id in s.runs ==> s'.runs[id] == s.runs[id])
            else
              && id in s'.runs
              && if Started(s, id) then s'.runs[id] == s.runs[id].(crew := s.runs[id].crew + {worker})
                 else
                   var r := s'.runs[id];
                   && r.dispatched && r.status == Running && r.slotHeld && r.crew == {worker} && r.finished == {}
                   && r.startedAt == Some(now) && r.endedAt.None? && r.abortAt.None? && r.workersLostAt.None?
                   && r.reason == "" && r.dropped == NO_DROPS
    decreases |active|
  {
    if active != [] {
      var s1 := RehydrateOne(s, worker, active[0], now);
      RehydrateIs(s1, worker, active[1..], now, id);
      if id == active[0] && Started(s, id) {
        assert s.runs[id].crew + {worker} + {worker} == s.runs[id].crew + {worker};
      } else if id == active[0] {
        assert {worker} + {worker} == {worker};
      }
    }
  }

  // --------------------------------------------------------------- a late start

  lemma {:induction false} RehydrateSparesOthers(s: State, worker: WorkerId, active: seq<RunId>, now: Time, id: RunId)
    requires id in s.runs && id !in active
    ensures id in Rehydrate(s, worker, active, now).runs && Rehydrate(s, worker, active, now).runs[id] == s.runs[id]
    decreases |active|
  {
    if active != [] {
      RehydrateSparesOthers(RehydrateOne(s, worker, active[0], now), worker, active[1..], now, id);
    }
  }

  lemma LaunchStep(s: State, e: Entry, id: RunId)
    requires Orderly(s) && NoOverlap(s, e) && id in s.runs && !Started(s, id) && Started(Step(s, e), id)
    ensures JustStarted(Step(s, e).runs[id], e.now)
  {
    match e.event
    case Register(worker, active) => RehydrateSparesOthers(s, worker, active, e.now, id);
    case Admit(world) => DrainOnRun(s, world, e.now, id);
    case Finished(worker, run, drops, world) =>
      if run in s.runs {
        FinalizeOnRun(s.(runs := s.runs[run := Reported(s.runs[run], worker, drops)]), run, Completed, world, e.now, id);
      }
    case Force(run, reason, world) =>
      if run in s.runs {
        var r := s.runs[run];
        var named := r.(reason := if r.reason == "" then reason else r.reason);
        FinalizeOnRun(s.(runs := s.runs[run := named]), run, Aborted, world, e.now, id);
      }
    case _ =>
  }

  /**
   When a queued run is finally started, nothing of what was done to it while it waited is left:
   it is RUNNING with no reason, no stop noted, nobody finished and nothing dropped.
   */
  lemma LaunchForgetsTheWait(states: seq<State>, log: seq<Entry>, i: nat, id: RunId)
    requires OrderlyTrace(states, log) && i < |log|
    requires id in states[i].runs && !Started(states[i], id) && Started(states[i + 1], id)
    ensures JustStarted(states[i + 1].runs[id], log[i].now)
  {
    AlwaysOrderly(states, log, i);
    LaunchStep(states[i], log[i], id);
  }

  // ----------------------------------------------------------------- completion

  lemma SubsetOfSameSize<T>(a: set<T>, b: set<T>)
    requires |a| >= |b|
    ensures a == b <==> a <= b
  {
    if a <= b {
      assert |b - a| == |b| - |a|;
    }
  }

  /** This step turns the run COMPLETED. */
  ghost predicate Completes(s: State, e: Entry, id: RunId) {
    && id in Step(s, e).runs && Step(s, e).runs[id].status == Completed
    && !(id in s.runs && s.runs[id].status == Completed)
  }

  /** What finalizing one run, and the drain it sets off, makes of any run. */
  lemma FinalizeOnRun(s: State, run: RunId, fallback: Status, world: World, now: Time, id: RunId)
    requires run in s.runs && id in Finalize(s, run, fallback, world, now).runs
    ensures var r' := Finalize(s, run, fallback, world, now).runs[id];
            || (JustStarted(r', now) && InQueue(s.queue, id))
            || (id in s.runs && r' == s.runs[id])
            || (id == run && s.runs[id].endedAt.None?
                && r' == s.runs[id].(status := if s.runs[id].status == Running then fallback else s.runs[id].status,
                                     endedAt := Some(now), slotHeld := false))
  {
    var r := s.runs[run];
    if r.endedAt.None? && r.slotHeld {
      var ended := r.(status := if r.status == Running then fallback else r.status,
                      endedAt := Some(now), slotHeld := false);
      DrainOnRun(s.(runs := s.runs[run := ended], running := s.running - 1), world, now, id);
    }
  }

  lemma {:induction false} RehydrateNeverCompletes(s: State, worker: WorkerId, active: seq<RunId>, now: Time, id: RunId)
    requires id in Rehydrate(s, worker, active, now).runs
    requires Rehydrate(s, worker, active, now).runs[id].status == Completed
    ensures id in s.runs && s.runs[id].status == Completed
    decreases |active|
  {
    if active != [] {
      RehydrateNeverCompletes(RehydrateOne(s, worker, active[0], now), worker, active[1..], now, id);
    }
  }

  lemma OnlyFinishedCompletes(s: State, e: Entry, id: RunId)
    requires Completes(s, e, id)
    ensures e.event.Finished? && e.event.run == id
  {
    match e.event
    case Register(worker, active) => RehydrateNeverCompletes(s, worker, active, e.now, id);
    case Admit(world) => DrainOnRun(s, world, e.now, id);
    case Finished(worker, run, drops, world) =>
      if run in s.runs {
        FinalizeOnRun(s.(runs := s.runs[run := Reported(s.runs[run], worker, drops)]), run, Completed, world, e.now, id);
      }
    case Force(run, reason, world) =>
      if run in s.runs {
        var r := s.runs[run];
        var named := r.(reason := if r.reason == "" then reason else r.reason);
        FinalizeOnRun(s.(runs := s.runs[run := named]), run, Aborted, world, e.now, id);
      }
    case _ =>
  }

  /**
   Completion is judged by counting heads. From any state, a step that turns a run COMPLETED is
   a Finished message for it, and the finished workers are then exactly the assigned ones if
   and only if those before it were assigned and so is its sender.
   */
  lemma CompletionStep(s: State, e: Entry, id: RunId)
    requires Completes(s, e, id)
    ensures e.event.Finished? && e.event.run == id && id in s.runs && s.runs[id].status == Running
    ensures var r, r', worker := s.runs[id], Step(s, e).runs[id], e.event.worker;
            && r'.crew == r.crew && r'.finished == r.finished + {worker} && |r'.finished| >= |r'.crew|
            && (r'.finished == r'.crew <==> r.finished <= r.crew && worker in r.crew)
  {
    OnlyFinishedCompletes(s, e, id);
    var worker, world := e.event.worker, e.event.world;
    var r := Reported(s.runs[id], worker, e.event.drops);
    FinalizeOnRun(s.(runs := s.runs[id := r]), id, Completed, world, e.now, id);
    SubsetOfSameSize(r.finished, r.crew);
  }

  /**
   What a Finished message does to a run that is on: the sender is noted, its drops are added,
   and the run ends, freeing its slot, exactly if it has now heard from as many workers as are
   assigned to it; a RUNNING run is then COMPLETED, an aborted one keeps its verdict.
   */
  lemma FinishedOutcome(s: State, worker: WorkerId, id: RunId, drops: Drops, world: World, now: Time)
    requires Orderly(s) && Started(s, id) && s.runs[id].endedAt.None?
    ensures Started(WorkerFinished(s, worker, id, drops, world, now), id)
    ensures var r, r' := s.runs[id], WorkerFinished(s, worker, id, drops, world, now).runs[id];
            var over := |r.finished + {worker}| >= |r.crew|;
            && r'.finished == r.finished + {worker} && r'.crew == r.crew && r'.reason == r.reason
            && r'.dropped.iterations == r.dropped.iterations + drops.iterations
            && r'.dropped.metrics == r.dropped.metrics + drops.metrics
            && r'.endedAt == (if over then Some(now) else None) && r'.slotHeld == !over
            && r'.status == if over && r.status == Running then Completed else r.status
  {
    var r := Reported(s.runs[id], worker, drops);
    AmendFit(s, id, r, s.running);
    if |r.finished| >= |r.crew| {
      FinalizeEnds(s.(runs := s.runs[id := r]), id, Completed, world, now);
    }
  }

  /** Finalizing a started run ends it, whatever the drain that follows starts. */
  lemma FinalizeEnds(s: State, id: RunId, fallback: Status, world: World, now: Time)
    requires Orderly(s) && Started(s, id) && s.runs[id].endedAt.None? && Rank(fallback) > Rank(Running)
    ensures var s' := Finalize(s, id, fallback, world, now);
            id in s'.runs
            && s'.runs[id] == s.runs[id].(status := if s.runs[id].status == Running then fallback else s.runs[id].status,
                                          endedAt := Some(now), slotHeld := false)
  {
    var r := s.runs[id];
    var ended := r.(status := if r.status == Running then fallback else r.status,
                    endedAt := Some(now), slotHeld := false);
    AmendFit(s, id, ended, s.running - 1);
    DrainSparesStarted(s.(runs := s.runs[id := ended], running := s.running - 1), world, now, id);
  }

  /** So once the last assigned worker has reported, a RUNNING run is COMPLETED and its slot is free. */
  lemma LastReportEnds(s: State, worker: WorkerId, id: RunId, drops: Drops, world: World, now: Time)
    requires Orderly(s) && Started(s, id) && s.runs[id].status == Running && s.runs[id].crew <= s.runs[id].finished + {worker}
    ensures Started(WorkerFinished(s, worker, id, drops, world, now), id)
    ensures var r' := WorkerFinished(s, worker, id, drops, world, now).runs[id];
            r'.status == Completed && r'.endedAt == Some(now) && !r'.slotHeld
  {
    SubsetIsSmaller(s.runs[id].crew, s.runs[id].finished + {worker});
    FinishedOutcome(s, worker, id, drops, world, now);
  }

  lemma SubsetIsSmaller<T>(a: set<T>, b: set<T>)
    requires a <= b
    ensures |a| <= |b|
  {
    assert |b - a| == |b| - |a|;
  }

  /** Whom this step adds to the run's finished workers: the sender, whoever that is. */
  ghost function Reporter(s: State, e: Entry, id: RunId): set<WorkerId> {
    if e.event.Finished? && e.event.run == id && id in s.runs && s.runs[id].dispatched
    then {e.event.worker} else {}
  }

  /** Everybody who reported the run finished before step i, once it was dispatched. */
  ghost function Reporters(states: seq<State>, log: seq<Entry>, i: nat, id: RunId): set<WorkerId>
    requires |states| == |log| + 1 && i < |states|
  {
    if i == 0 then {} else Reporters(states, log, i - 1, id) + Reporter(states[i - 1], log[i - 1], id)
  }

  /** The finished workers of a run as far as it was dispatched. */
  ghost function Roll(s: State, id: RunId): set<WorkerId> {
    if id in s.runs && s.runs[id].dispatched then s.runs[id].finished else {}
  }

  lemma FinalizeRoll(s: State, run: RunId, fallback: Status, world: World, now: Time, id: RunId)
    requires Orderly(s) && run in s.runs
    ensures Roll(Finalize(s, run, fallback, world, now), id) == Roll(s, id)
  {
    FinalizeKeepsIds(s, run, fallback, world, now);
    if id in Finalize(s, run, fallback, world, now).runs {
      FinalizeOnRun(s, run, fallback, world, now, id);
    }
  }

  lemma {:induction false} RehydrateRoll(s: State, worker: WorkerId, active: seq<RunId>, now: Time, id: RunId)
    ensures Roll(Rehydrate(s, worker, active, now), id) == Roll(s, id)
    decreases |active|
  {
    if active != [] {
      RehydrateRoll(RehydrateOne(s, worker, active[0], now), worker, active[1..], now, id);
    }
  }

  lemma DrainRoll(s: State, world: World, now: Time, id: RunId)
    requires Orderly(s)
    ensures Roll(Drain(s, world, now), id) == Roll(s, id)
  {
    DrainKeepsIds(s, world, now);
    DrainOnRun(s, world, now, id);
  }

  lemma FinishedRoll(s: State, worker: WorkerId, run: RunId, drops: Drops, world: World, now: Time, id: RunId)
    requires Orderly(s)
    ensures Roll(WorkerFinished(s, worker, run, drops, world, now), id)
         == Roll(s, id) + if run == id && id in s.runs && s.runs[id].dispatched then {worker} else {}
  {
    if run in s.runs {
      var r := Reported(s.runs[run], worker, drops);
      AmendFit(s, run, r, s.running);
      FinalizeRoll(s.(runs := s.runs[run := r]), run, Completed, world, now, id);
    }
  }

  lemma ForceRoll(s: State, run: RunId, reason: string, world: World, now: Time, id: RunId)
    requires Orderly(s)
    ensures Roll(ForceFinalize(s, run, reason, world, now), id) == Roll(s, id)
  {
    if run in s.runs {
      var r := s.runs[run];
      var named := r.(reason := if r.reason == "" then reason else r.reason);
      AmendFit(s, run, named, s.running);
      FinalizeRoll(s.(runs := s.runs[run := named]), run, Aborted, world, now, id);
    }
  }

  lemma QuietRoll(s: State, e: Entry, id: RunId)
    requires e.event.Start? || e.event.Stop? || e.event.Trip? || e.event.Reap? || e.event.Limit?
    ensures Roll(Step(s, e), id) == Roll(s, id)
  {
  }

  /** Only Finished messages for a dispatched run add to its finished workers, and nothing removes any. */
  lemma RollStep(s: State, e: Entry, id: RunId)
    requires Orderly(s) && NoOverlap(s, e)
    ensures Roll(Step(s, e), id) == Roll(s, id) + Reporter(s, e, id)
  {
    match e.event
    case Register(worker, active) => RehydrateRoll(s, worker, active, e.now, id);
    case Admit(world) => DrainRoll(s, world, e.now, id);
    case Finished(worker, run, drops, world) => FinishedRoll(s, worker, run, drops, world, e.now, id);
    case Force(run, reason, world) => ForceRoll(s, run, reason, world, e.now, id);
    case _ => QuietRoll(s, e, id);
  }

  lemma {:induction false} RollIsReporters(states: seq<State>, log: seq<Entry>, i: nat, id: RunId)
    requires OrderlyTrace(states, log) && i < |states|
    ensures Roll(states[i], id) == Reporters(states, log, i, id)
  {
    if i > 0 {
      RollIsReporters(states, log, i - 1, id);
      AlwaysOrderly(states, log, i - 1);
      RollStep(states[i - 1], log[i - 1], id);
    }
  }

  lemma {:induction false} WhoReported(states: seq<State>, log: seq<Entry>, i: nat, id: RunId, w: WorkerId)
    requires |states| == |log| + 1 && i < |states|
    ensures w in Reporters(states, log, i, id) <==>
              exists k :: 0 <= k < i && w in Reporter(states[k], log[k], id)
  {
    if i > 0 {
      WhoReported(states, log, i - 1, id, w);
    }
  }

  /**
   Completion is real, exactly: when a run turns COMPLETED, the finished workers are the
   assigned ones if and only if everybody who ever reported it finished is assigned to it.
   */
  lemma CompletionIsRealIff(states: seq<State>, log: seq<Entry>, i: nat, id: RunId)
    requires OrderlyTrace(states, log) && i < |log| && Completes(states[i], log[i], id)
    ensures id in states[i + 1].runs
    ensures var r := states[i + 1].runs[id];
            r.finished == r.crew <==>
              forall k :: 0 <= k <= i ==> Reporter(states[k], log[k], id) <= r.crew
  {
    CompletionStep(states[i], log[i], id);
    AlwaysOrderly(states, log, i + 1);
    RollIsReporters(states, log, i + 1, id);
    var r := states[i + 1].runs[id];
    SubsetOfSameSize(r.finished, r.crew);
    forall w ensures w in r.finished <==> exists k :: 0 <= k < i + 1 && w in Reporter(states[k], log[k], id) {
      WhoReported(states, log, i + 1, id, w);
    }
  }

  lemma {:induction false} RehydrateCrew(s: State, worker: WorkerId, active: seq<RunId>, now: Time, id: RunId)
    ensures !Started(s, id) && Started(Rehydrate(s, worker, active, now), id) ==>
              Rehydrate(s, worker, active, now).runs[id].crew != {}
  {
    RehydrateIs(s, worker, active, now, id);
  }

  lemma NewlyStartedHasCrew(s: State, e: Entry, id: RunId)
    requires Orderly(s) && NoOverlap(s, e) && !Started(s, id) && Started(Step(s, e), id)
    ensures Step(s, e).runs[id].crew != {}
  {
    match e.event
    case Register(worker, active) => RehydrateCrew(s, worker, active, e.now, id);
    case Admit(world) => DrainOnRun(s, world, e.now, id);
    case Finished(worker, run, drops, world) =>
      if run in s.runs {
        FinalizeOnRun(s.(runs := s.runs[run := Reported(s.runs[run], worker, drops)]), run, Completed, world, e.now, id);
      }
    case Force(run, reason, world) =>
      if run in s.runs {
        var r := s.runs[run];
        var named := r.(reason := if r.reason == "" then reason else r.reason);
        FinalizeOnRun(s.(runs := s.runs[run := named]), run, Aborted, world, e.now, id);
      }
    case _ =>
  }

  /** A started run has somebody assigned, and is over once all of them are among its finished workers. */
  ghost predicate OverWhenAllFinished(s: State, id: RunId) {
    Started(s, id) ==> s.runs[id].crew != {} && (s.runs[id].crew <= s.runs[id].finished ==> s.runs[id].endedAt.Some?)
  }

  lemma FinishedKeepsOver(s: State, worker: WorkerId, id: RunId, drops: Drops, world: World, now: Time)
    requires Orderly(s) && Started(s, id) && OverWhenAllFinished(s, id) && s.runs[id].endedAt.None?
    ensures OverWhenAllFinished(WorkerFinished(s, worker, id, drops, world, now), id)
  {
    FinishedOutcome(s, worker, id, drops, world, now);
    var r' := WorkerFinished(s, worker, id, drops, world, now).runs[id];
    if r'.crew <= r'.finished {
      SubsetIsSmaller(r'.crew, r'.finished);
    }
  }

  lemma OverStep(s: State, e: Entry, id: RunId)
    requires Orderly(s) && NoOverlap(s, e) && OverWhenAllFinished(s, id)
    ensures OverWhenAllFinished(Step(s, e), id)
  {
    StepFit(s, e);
    RollStep(s, e, id);
    if !Started(s, id) {
      if Started(Step(s, e), id) {
        NewlyStartedHasCrew(s, e, id);
      }
    } else if e.event.Finished? && e.event.run == id && s.runs[id].endedAt.None? {
      FinishedKeepsOver(s, e.event.worker, id, e.event.drops, e.event.world, e.now);
    }
  }

  lemma {:induction false} AlwaysOver(states: seq<State>, log: seq<Entry>, i: nat, id: RunId)
    requires OrderlyTrace(states, log) && i < |states|
    ensures OverWhenAllFinished(states[i], id)
  {
    if i > 0 {
      AlwaysOver(states, log, i - 1, id);
      AlwaysOrderly(states, log, i - 1);
      OverStep(states[i - 1], log[i - 1], id);
    }
  }

  /** In every history, once every assigned worker has reported a run finished, it has ended and holds no slot. */
  lemma AllReportedMeansEnded(states: seq<State>, log: seq<Entry>, i: nat, id: RunId)
    requires OrderlyTrace(states, log) && i < |states| && Started(states[i], id)
    requires states[i].runs[id].crew <= Reporters(states, log, i, id)
    ensures states[i].runs[id].endedAt.Some? && !states[i].runs[id].slotHeld && states[i].runs[id].status != Running
  {
    RollIsReporters(states, log, i, id);
    AlwaysOver(states, log, i, id);
    AlwaysOrderly(states, log, i);
  }

  /** Finished messages come only from workers the run was assigned to. */
  ghost predicate Honest(s: State, e: Entry) {
    e.event.Finished? && e.event.run in s.runs ==> e.event.worker in s.runs[e.event.run].crew
  }

  ghost predicate Attested(s: State) {
    forall id :: id in s.runs ==> s.runs[id].finished <= s.runs[id].crew
  }

  lemma {:induction false} RehydrateAttested(s: State, worker: WorkerId, active: seq<RunId>, now: Time)
    requires Attested(s)
    ensures Attested(Rehydrate(s, worker, active, now))
    decreases |active|
  {
    if active != [] {
      RehydrateAttested(RehydrateOne(s, worker, active[0], now), worker, active[1..], now);
    }
  }

  lemma DrainAttested(s: State, world: World, now: Time)
    requires Attested(s)
    ensures Attested(Drain(s, world, now))
  {
    var s' := Drain(s, world, now);
    forall id | id in s'.runs ensures s'.runs[id].finished <= s'.runs[id].crew {
      DrainOnRun(s, world, now, id);
    }
  }

  lemma FinalizeAttested(s: State, run: RunId, fallback: Status, world: World, now: Time)
    requires Attested(s) && run in s.runs
    ensures Attested(Finalize(s, run, fallback, world, now))
  {
    var s' := Finalize(s, run, fallback, world, now);
    forall id | id in s'.runs ensures s'.runs[id].finished <= s'.runs[id].crew {
      FinalizeOnRun(s, run, fallback, world, now, id);
    }
  }

  lemma StepAttested(s: State, e: Entry)
    requires Attested(s) && Honest(s, e)
    ensures Attested(Step(s, e))
  {
    match e.event
    case Register(worker, active) => RehydrateAttested(s, worker, active, e.now);
    case Admit(world) => DrainAttested(s, world, e.now);
    case Finished(worker, run, drops, world) =>
      if run in s.runs {
        FinalizeAttested(s.(runs := s.runs[run := Reported(s.runs[run], worker, drops)]), run, Completed, world, e.now);
      }
    case Force(run, reason, world) =>
      if run in s.runs {
        var r := s.runs[run];
        var named := r.(reason := if r.reason == "" then reason else r.reason);
        FinalizeAttested(s.(runs := s.runs[run := named]), run, Aborted, world, e.now);
      }
    case _ =>
  }

  lemma {:induction false} AlwaysAttested(states: seq<State>, log: seq<Entry>, i: nat)
    requires Trace(states, log) && i < |states|
    requires forall k :: 0 <= k < i ==> Honest(states[k], log[k])
    ensures Attested(states[i])
  {
    if i > 0 {
      AlwaysAttested(states, log, i - 1);
      StepAttested(states[i - 1], log[i - 1]);
    }
  }

  /**
   In particular, overlap or not, as long as only assigned workers report Finished, finished
   stays within assigned and a run that turns COMPLETED had every assigned worker report.
   */
  lemma CompletionIsReal(states: seq<State>, log: seq<Entry>, i: nat, id: RunId)
    requires Trace(states, log) && i < |log|
    ensures (forall k :: 0 <= k <= i ==> Honest(states[k], log[k])) ==>
              && Attested(states[i + 1])
              && (Completes(states[i], log[i], id) ==> states[i + 1].runs[id].finished == states[i + 1].runs[id].crew)
  {
    if forall k :: 0 <= k <= i ==> Honest(states[k], log[k]) {
      AlwaysAttested(states, log, i + 1);
      AlwaysAttested(states, log, i);
      if Completes(states[i], log[i], id) {
        CompletionStep(states[i], log[i], id);
      }
    }
  }

  function RunOf(crew: set<WorkerId>, finished: set<WorkerId>): State {
    State(map["r" := RunState(true, crew, finished, Running, "", Some(0), None, 0, None, None, true, NO_DROPS)], [], 1, 1, [])
  }

  lemma TwoRegister()
    ensures Rehydrate(Init(1), "a", ["r"], 0) == RunOf({"a"}, {})
    ensures Rehydrate(RunOf({"a"}, {}), "b", ["r"], 0) == RunOf({"a", "b"}, {})
  {
    assert RehydrateOne(Init(1), "a", "r", 0) == RunOf({"a"}, {});
    assert {"a"} + {"b"} == {"a", "b"};
    assert RehydrateOne(RunOf({"a"}, {}), "b", "r", 0) == RunOf({"a", "b"}, {});
  }

  lemma TwoStrangersReport(world: World)
    ensures WorkerFinished(RunOf({"a", "b"}, {}), "x", "r", NO_DROPS, world, 0) == RunOf({"a", "b"}, {"x"})
    ensures var s := WorkerFinished(RunOf({"a", "b"}, {"x"}), "y", "r", NO_DROPS, world, 0);
            "r" in s.runs && s.runs["r"].status == Completed
            && s.runs["r"].crew == {"a", "b"} && s.runs["r"].finished == {"x", "y"}
  {
    assert {"x"} + {"y"} == {"x", "y"};
  }

  /** The other case does occur: a history in which two strangers complete a run of two others. */
  lemma StrangersCompleteARun(world: World) returns (states: seq<State>, log: seq<Entry>)
    ensures OrderlyTrace(states, log) && |log| == 4
    ensures Completes(states[3], log[3], "r") && states[4].runs["r"].crew == {"a", "b"}
    ensures states[4].runs["r"].finished == {"x", "y"}
  {
    TwoRegister();
    TwoStrangersReport(world);
    log := [Entry(0, Register("a", ["r"])), Entry(0, Register("b", ["r"])),
            Entry(0, Finished("x", "r", NO_DROPS, world)), Entry(0, Finished("y", "r", NO_DROPS, world))];
    states := [Init(1), RunOf({"a"}, {}), RunOf({"a", "b"}, {}), RunOf({"a", "b"}, {"x"}),
               WorkerFinished(RunOf({"a", "b"}, {"x"}), "y", "r", NO_DROPS, world, 0)];
    assert Trace(states, log);
  }

  // ------------------------------------------------------------------- watchdog

  /** The run is shown as RUNNING, has not ended, and of its workers, of whom there are some, none is registered. */
  ghost predicate Unattended(s: State, present: set<WorkerId>, id: RunId) {
    && id in s.runs && s.runs[id].status == Running && s.runs[id].endedAt.None?
    && s.runs[id].crew != {} && forall w :: w in s.runs[id].crew ==> w !in present
  }

  /**
   Read off the history alone: the times of the unbroken run of reaper scans, ending with the
   last scan before step i, each of which found the run RUNNING with no assigned worker present.
   */
  ghost function LostTimes(states: seq<State>, log: seq<Entry>, i: nat, id: RunId): seq<Time>
    requires |states| == |log| + 1 && i < |states|
  {
    if i == 0 then []
    else if !log[i - 1].event.Reap? then LostTimes(states, log, i - 1, id)
    else if Unattended(states[i - 1], log[i - 1].event.present, id)
    then LostTimes(states, log, i - 1, id) + [log[i - 1].now]
    else []
  }

  /** Some message from position `from` on is an assignment for the run. */
  ghost predicate Sends(sent: seq<Assignment>, from: nat, id: RunId) {
    exists k :: from <= k < |sent| && sent[k].runId == id
  }

  /** This step starts the run: an assignment for it goes out. */
  ghost predicate Launches(s: State, e: Entry, id: RunId) {
    Sends(Step(s, e).sent, |s.sent|, id)
  }

  /** The scans of that streak that came after the run was last started. */
  ghost function LostSinceLaunch(states: seq<State>, log: seq<Entry>, i: nat, id: RunId): seq<Time>
    requires |states| == |log| + 1 && i < |states|
  {
    if i == 0 then []
    else if !log[i - 1].event.Reap? then
      if Launches(states[i - 1], log[i - 1], id) then [] else LostSinceLaunch(states, log, i - 1, id)
    else if Unattended(states[i - 1], log[i - 1].event.present, id)
    then LostSinceLaunch(states, log, i - 1, id) + [log[i - 1].now]
    else []
  }

  /** A run is either started, by an assignment sent, or left exactly as it was. */
  ghost predicate StartedOrSame(s: State, s': State, now: Time, id: RunId) {
    && s.sent <= s'.sent
    && if Sends(s'.sent, |s.sent|, id) then id in s'.runs && JustStarted(s'.runs[id], now)
       else (id in s'.runs <==> id in s.runs) && (id in s.runs ==> s'.runs[id] == s.runs[id])
  }

  lemma DispatchStarts(s: State, req: Request, p: Poll, now: Time, id: RunId)
    ensures StartedOrSame(s, Dispatch(s, req, p, now).0, now, id)
  {
    var workers := PickWorkers(p.candidates, req.desired);
    var (s', out) := Dispatch(s, req, p, now);
    DispatchSends(req, workers, p.full);
    var more := Accepted(Offers(req, workers), p.full);
    if out.Dispatched? {
      assert s'.sent == s.sent + more && more[0] in more && s'.sent[|s.sent|] == more[0];
      forall k | |s.sent| <= k < |s'.sent| ensures s'.sent[k].runId == req.runId {
        assert s'.sent[k] == more[k - |s.sent|] && more[k - |s.sent|] in more;
      }
    }
  }

  lemma StartedOrSameJoins(s: State, s1: State, s2: State, now: Time, id: RunId)
    requires StartedOrSame(s, s1, now, id) && StartedOrSame(s1, s2, now, id)
    ensures StartedOrSame(s, s2, now, id)
  {
    if Sends(s1.sent, |s.sent|, id) {
      var k :| |s.sent| <= k < |s1.sent| && s1.sent[k].runId == id;
      assert s2.sent[k] == s1.sent[k];
    }
    if Sends(s2.sent, |s.sent|, id) {
      var k :| |s.sent| <= k < |s2.sent| && s2.sent[k].runId == id;
      if k < |s1.sent| {
        assert s1.sent[k] == s2.sent[k];
      }
    }
  }

  lemma {:induction false} DrainStarts(s: State, world: World, now: Time, id: RunId)
    ensures StartedOrSame(s, Drain(s, world, now), now, id)
    decreases |s.queue|
  {
    if !(s.queue == [] || s.running >= s.maxRuns || !world(|s.queue|).eligible) {
      var popped := s.(queue := s.queue[1..]);
      var (s', out) := Dispatch(popped, s.queue[0], world(|s.queue|), now);
      DispatchStarts(popped, s.queue[0], world(|s.queue|), now, id);
      if out.Dispatched? {
        DrainStarts(s', world, now, id);
        StartedOrSameJoins(popped, s', Drain(s', world, now), now, id);
      }
    }
  }

  /** The clock of a run, if it is known and has one. */
  function Clock(s: State, id: RunId): Option<Time> {
    if id in s.runs then s.runs[id].workersLostAt else None
  }

  /** Only a start touches the clock, and it clears it; a start is never undone. */
  ghost predicate ClockKept(s: State, s': State, id: RunId) {
    && Clock(s', id) == (if Sends(s'.sent, |s.sent|, id) then None else Clock(s, id))
    && (Started(s, id) ==> Started(s', id))
  }

  lemma FinalizeClock(s: State, run: RunId, fallback: Status, world: World, now: Time, id: RunId)
    requires run in s.runs
    ensures ClockKept(s, Finalize(s, run, fallback, world, now), id)
  {
    var r := s.runs[run];
    if r.endedAt.None? && r.slotHeld {
      var ended := r.(status := if r.status == Running then fallback else r.status,
                      endedAt := Some(now), slotHeld := false);
      DrainStarts(s.(runs := s.runs[run := ended], running := s.running - 1), world, now, id);
    }
  }

  lemma {:induction false} RehydrateClock(s: State, worker: WorkerId, active: seq<RunId>, now: Time, id: RunId)
    requires Clock(s, id).Some? ==> Started(s, id)
    ensures ClockKept(s, Rehydrate(s, worker, active, now), id)
    decreases |active|
  {
    if active != [] {
      RehydrateClock(RehydrateOne(s, worker, active[0], now), worker, active[1..], now, id);
    }
  }

  /** From any state, overlap or not: apart from scans, no step but a start touches a run's clock. */
  lemma ClockStep(s: State, e: Entry, id: RunId)
    requires !e.event.Reap? && (Clock(s, id).Some? ==> Started(s, id))
    ensures ClockKept(s, Step(s, e), id)
  {
    match e.event
    case Start(req, poll) => DispatchStarts(s, req, poll, e.now, id);
    case Register(worker, active) => RehydrateClock(s, worker, active, e.now, id);
    case Admit(world) => DrainStarts(s, world, e.now, id);
    case Finished(worker, run, drops, world) =>
      if run in s.runs {
        FinalizeClock(s.(runs := s.runs[run := Reported(s.runs[run], worker, drops)]), run, Completed, world, e.now, id);
      }
    case Force(run, reason, world) =>
      if run in s.runs {
        var r := s.runs[run];
        var named := r.(reason := if r.reason == "" then reason else r.reason);
        FinalizeClock(s.(runs := s.runs[run := named]), run, Aborted, world, e.now, id);
      }
    case _ =>
  }

  /**
   In every history, overlap or not, a run's clock is the time of the first scan of the streak
   since it was last started: one sighting of a worker resets it, and so does a start.
   */
  lemma {:induction false} ClockIsStreakStart(states: seq<State>, log: seq<Entry>, i: nat, id: RunId)
    requires Trace(states, log) && i < |states|
    ensures var times := LostSinceLaunch(states, log, i, id);
            Clock(states[i], id) == if times == [] then None else Some(times[0])
    ensures Clock(states[i], id).Some? ==> Started(states[i], id)
  {
    if i > 0 {
      ClockIsStreakStart(states, log, i - 1, id);
      if log[i - 1].event.Reap? {
        SlotsAlwaysCovered(states, log, i - 1);
        assert states[i].runs.Keys == states[i - 1].runs.Keys;
      } else {
        ClockStep(states[i - 1], log[i - 1], id);
      }
    }
  }

  /**
   Watchdog soundness and promptness in every history: a scan condemns a run if and only if an
   unbroken streak of scans since the run was last started, this one included and spanning at
   least the grace period, each found it RUNNING with none of its workers registered.
   */
  lemma WatchdogIsExact(states: seq<State>, log: seq<Entry>, i: nat, id: RunId)
    requires Trace(states, log) && i < |log| && log[i].event.Reap?
    ensures var times := LostSinceLaunch(states, log, i + 1, id);
            id in Orphans(states[i], log[i].event.present, log[i].now) <==>
              times != [] && log[i].now - times[0] >= 30_000
  {
    ClockIsStreakStart(states, log, i, id);
  }

  lemma {:induction false} StreakIsRecent(states: seq<State>, log: seq<Entry>, i: nat, id: RunId) returns (n: nat)
    requires |states| == |log| + 1 && i < |states|
    ensures n <= |LostTimes(states, log, i, id)|
    ensures LostSinceLaunch(states, log, i, id) == LostTimes(states, log, i, id)[n..]
  {
    n := 0;
    if i > 0 {
      n := StreakIsRecent(states, log, i - 1, id);
      if !log[i - 1].event.Reap? && Launches(states[i - 1], log[i - 1], id) {
        n := |LostTimes(states, log, i, id)|;
      } else if log[i - 1].event.Reap?
                && !Unattended(states[i - 1], log[i - 1].event.present, id) {
        n := 0;
      }
    }
  }

  /** Soundness in every history, whether or not the run was started twice: nobody is condemned without such a streak. */
  lemma CondemnedOnlyWhenLost(states: seq<State>, log: seq<Entry>, i: nat, id: RunId)
    requires Trace(states, log) && i < |log| && log[i].event.Reap?
    requires id in Orphans(states[i], log[i].event.present, log[i].now)
    ensures var times := LostTimes(states, log, i + 1, id);
            exists n :: 0 <= n < |times| && log[i].now - times[n] >= ORPHAN_GRACE
  {
    WatchdogIsExact(states, log, i, id);
    var n := StreakIsRecent(states, log, i + 1, id);
    assert LostSinceLaunch(states, log, i + 1, id)[0] == LostTimes(states, log, i + 1, id)[n];
  }

  /** Without overlap no run is started in the middle of a streak. */
  lemma {:induction false} StreakIsWhole(states: seq<State>, log: seq<Entry>, i: nat, id: RunId)
    requires OrderlyTrace(states, log) && i < |states|
    ensures LostSinceLaunch(states, log, i, id) == LostTimes(states, log, i, id)
    ensures LostTimes(states, log, i, id) != [] ==> Started(states[i], id)
  {
    if i > 0 {
      StreakIsWhole(states, log, i - 1, id);
      AlwaysOrderly(states, log, i - 1);
      StepAdvances(states, log, i - 1);
      if Launches(states[i - 1], log[i - 1], id) {
        assert !Started(states[i - 1], id);
      }
    }
  }

  /** Without overlap the streak is simply the unbroken one. */
  lemma WatchdogIsPrompt(states: seq<State>, log: seq<Entry>, i: nat, id: RunId)
    requires OrderlyTrace(states, log) && i < |log| && log[i].event.Reap?
    ensures var times := LostTimes(states, log, i + 1, id);
            id in Orphans(states[i], log[i].event.present, log[i].now) <==>
              times != [] && log[i].now - times[0] >= ORPHAN_GRACE
  {
    WatchdogIsExact(states, log, i, id);
    StreakIsWhole(states, log, i + 1, id);
  }

  /** A run whose only worker is "w", lost since the given time if any. */
  function Alone(planned: int, lostAt: Option<Time>): RunState {
    RunState(true, {"w"}, {}, Running, "", Some(0), None, planned, None, lostAt, true, NO_DROPS)
  }

  lemma ScanAlone(planned: int, queue: seq<Request>, running: int, sent: seq<Assignment>, lostAt: Option<Time>, now: Time)
    ensures var s := State(map["r" := Alone(planned, lostAt)], queue, running, 2, sent);
            && Unattended(s, {}, "r")
            && (lostAt.None? ==> Scan(s, {}, now).runs == map["r" := Alone(planned, Some(now))])
            && (lostAt.None? ==> "r" !in Orphans(s, {}, now))
  {
  }

  /** With overlap a run can stay lost past the grace period: the second start forgets the streak. */
  lemma SecondStartForgetsTheStreak() returns (states: seq<State>, log: seq<Entry>)
    ensures Trace(states, log) && |log| == 5 && log[4].event.Reap?
    ensures LostTimes(states, log, 5, "r") == [0, ORPHAN_GRACE] && log[4].now == ORPHAN_GRACE
    ensures "r" !in Orphans(states[4], log[4].event.present, log[4].now)
  {
    var req := Request("r", 0, []);
    var roster: Roster := ["w"];
    var world: World := _ => Poll(true, roster, {});
    var s1 := State(map["r" := Waiting(req)], [req], 0, 2, []);
    var s2 := State(map["r" := Alone(0, None)], [req], 1, 2, []);
    var s3 := State(map["r" := Alone(0, Some(0))], [req], 1, 2, []);
    var s4 := Dispatch(s3.(queue := []), req, world(1), 0).0;
    log := [Entry(0, Start(req, Poll(false, [], {}))), Entry(0, Register("w", ["r"])), Entry(0, Reap({})),
            Entry(0, Admit(world)), Entry(ORPHAN_GRACE, Reap({}))];
    QueuedThenRehydrated(req);
    assert Step(s1, log[1]) == s2;
    ScanAlone(0, [req], 1, [], None, 0);
    assert Step(s2, log[2]) == s3;
    DispatchToOne(s3.(queue := []), req, "w", 0);
    DrainOfOne(s3, req, world, 0);
    assert s4.runs == map["r" := Alone(0, None)];
    ScanAlone(0, s4.queue, s4.running, s4.sent, None, ORPHAN_GRACE);
    states := [Init(2), s1, s2, s3, s4, Step(s4, log[4])];
    StreakOfTwo(states, log);
  }

  lemma StreakOfTwo(states: seq<State>, log: seq<Entry>)
    requires |states| == 6 && |log| == 5 && log[2].event.Reap? && log[4].event.Reap?
    requires !log[0].event.Reap? && !log[1].event.Reap? && !log[3].event.Reap?
    requires Unattended(states[2], log[2].event.present, "r") && Unattended(states[4], log[4].event.present, "r")
    ensures LostTimes(states, log, 5, "r") == [log[2].now, log[4].now]
  {
    assert LostTimes(states, log, 0, "r") == [];
    assert LostTimes(states, log, 1, "r") == [];
    assert LostTimes(states, log, 2, "r") == [];
    assert LostTimes(states, log, 3, "r") == [log[2].now];
    assert LostTimes(states, log, 4, "r") == [log[2].now];
  }

  /** The runs named by `ids` were ended as ABORTED, and every other dispatched run was spared. */
  ghost predicate Reaped(s: State, s': State, ids: seq<RunId>, now: Time) {
    forall id :: id in s.runs ==>
      id in s'.runs
      && (id in ids ==> s'.runs[id].status == Aborted && s'.runs[id].endedAt == Some(now) && !s'.runs[id].slotHeld)
      && (s.runs[id].dispatched && id !in ids ==> s'.runs[id] == s.runs[id])
  }

  lemma ReapOneMore(s: State, s1: State, front: seq<RunId>, last: RunId, world: World, now: Time)
    requires Orderly(s) && Orderly(s1) && Advances(s, s1) && Reaped(s, s1, front, now) && last !in front
    requires last in s.runs && s.runs[last].status == Running
    ensures var s2 := ForceFinalize(s1, last, ORPHAN_REASON, world, now);
            Orderly(s2) && Advances(s, s2) && Reaped(s, s2, front + [last], now)
  {
    var s2 := ForceFinalize(s1, last, ORPHAN_REASON, world, now);
    ForceEnds(s1, last, ORPHAN_REASON, world, now);
    ForceFit(s1, last, ORPHAN_REASON, world, now);
    AdvancesTransitive(s, s1, s2);
    forall id | id in s.runs
      ensures id in s2.runs
      ensures id in front + [last] ==>
                s2.runs[id].status == Aborted && s2.runs[id].endedAt == Some(now) && !s2.runs[id].slotHeld
      ensures s.runs[id].dispatched && id !in front + [last] ==> s2.runs[id] == s.runs[id]
    {
      assert id in s1.runs && Evolves(s.runs[id], s1.runs[id]);
      if id != last && s1.runs[id].dispatched {
        ForceSpares(s1, last, ORPHAN_REASON, world, now, id);
      }
    }
  }

  /** A reap ends every condemned run as ABORTED and ends no other dispatched run. */
  lemma {:induction false} ReapEndsExactlyTheOrphans(s: State, ids: seq<RunId>, worlds: RunId -> World, now: Time)
    requires Orderly(s) && NoDup(ids)
    requires forall id :: id in ids ==> id in s.runs && s.runs[id].status == Running
    ensures var s' := ForceAll(s, ids, worlds, now);
            Orderly(s') && Advances(s, s') && Reaped(s, s', ids, now)
    decreases |ids|
  {
    if ids != [] {
      var front, last := ids[..|ids| - 1], ids[|ids| - 1];
      assert last !in front && ids == front + [last];
      ReapEndsExactlyTheOrphans(s, front, worlds, now);
      ReapOneMore(s, ForceAll(s, front, worlds, now), front, last, worlds(last), now);
    }
  }

  /** One call of the reaper, scan and all: the orphans end, every other dispatched run only has its clock set. */
  lemma ReapOnceIsExact(s: State, present: set<WorkerId>, now: Time, ids: seq<RunId>, worlds: RunId -> World)
    requires Orderly(s) && NoDup(ids) && (set id | id in ids) == Orphans(s, present, now)
    ensures var s' := ForceAll(Scan(s, present, now), ids, worlds, now);
            forall id :: id in s.runs && s.runs[id].dispatched ==>
              id in s'.runs
              && if id in Orphans(s, present, now)
                 then s'.runs[id].status == Aborted && s'.runs[id].endedAt == Some(now) && !s'.runs[id].slotHeld
                 else s'.runs[id] == ScanRun(s.runs[id], present, now)
  {
    var scanned := Scan(s, present, now);
    ScanFit(s, present, now);
    forall id | id in ids ensures id in s.runs && scanned.runs[id].status == Running {
      assert id in Orphans(s, present, now);
    }
    ReapEndsExactlyTheOrphans(scanned, ids, worlds, now);
    assert forall id :: id in ids <==> id in Orphans(s, present, now);
  }

  /**
   The reaper lets go of the mutex between its scan and the forced endings. Whatever happens in
   between, a worker coming back included, forcing a condemned run leaves it ended and without
   a slot, as ABORTED if it was still RUNNING, and touches no other dispatched run.
   */
  lemma CondemnedRunsEnd(states: seq<State>, log: seq<Entry>, i: nat, j: nat, id: RunId, other: RunId)
    requires OrderlyTrace(states, log) && i < j < |log| && log[i].event.Reap?
    requires id in Orphans(states[i], log[i].event.present, log[i].now)
    requires log[j].event.Force? && log[j].event.run == id
    ensures id in states[j].runs && id in states[j + 1].runs
    ensures var r, r' := states[j].runs[id], states[j + 1].runs[id];
            && !r'.slotHeld && r'.endedAt == (if r.endedAt.Some? then r.endedAt else Some(log[j].now))
            && (r.status == Running ==> r'.status == Aborted)
    ensures other in states[j].runs && states[j].runs[other].dispatched && other != id ==>
              other in states[j + 1].runs && states[j + 1].runs[other] == states[j].runs[other]
  {
    var e := log[j].event;
    CondemnedWasStarted(states, log, i, j, id);
    AlwaysOrderly(states, log, j);
    ForceEnds(states[j], id, e.reason, e.world, log[j].now);
    if other in states[j].runs && states[j].runs[other].dispatched && other != id {
      ForceSpares(states[j], id, e.reason, e.world, log[j].now, other);
    }
  }

  lemma CondemnedWasStarted(states: seq<State>, log: seq<Entry>, i: nat, j: nat, id: RunId)
    requires OrderlyTrace(states, log) && i <= j < |states| && i < |log| && log[i].event.Reap?
    requires id in Orphans(states[i], log[i].event.present, log[i].now)
    ensures id in states[j].runs && states[j].runs[id].dispatched
  {
    AlwaysOrderly(states, log, i);
    HistoryAdvances(states, log, i, j);
  }

  lemma ForceSpares(s: State, run: RunId, reason: string, world: World, now: Time, id: RunId)
    requires Orderly(s) && id in s.runs && s.runs[id].dispatched && id != run
    ensures var s' := ForceFinalize(s, run, reason, world, now);
            id in s'.runs && s'.runs[id] == s.runs[id]
  {
    if !(run !in s.runs || s.runs[run].endedAt.Some? || !s.runs[run].slotHeld) {
      var r := s.runs[run];
      var named := r.(reason := if r.reason == "" then reason else r.reason);
      var ended := named.(status := if r.status == Running then Aborted else r.status,
                          endedAt := Some(now), slotHeld := false);
      assert s.runs[run := named][run := ended] == s.runs[run := ended];
      DrainOnRun(s.(runs := s.runs[run := ended], running := s.running - 1), world, now, id);
      assert !InQueue(s.queue, id);
    }
  }

  // ------------------------------------------------------------ what is delivered

  /** A stage's target on one of the two curves: arrival rate or VUs. */
  function TargetOf(stage: Stage, rate: bool): int {
    if rate then stage.targetRps else stage.targetVus
  }

  /** The targets that a set of assignments asks for in one stage. */
  ghost function Demand(messages: seq<Assignment>, stage: nat, rate: bool): seq<int>
    requires forall a :: a in messages ==> stage < |a.ramp|
  {
    seq(|messages|, i requires 0 <= i < |messages| => TargetOf(messages[i].ramp[stage], rate))
  }

  ghost function SkippedDemand(offers: seq<Assignment>, full: set<WorkerId>, stage: nat, rate: bool): int
    requires forall a :: a in offers ==> stage < |a.ramp|
  {
    if offers == [] then 0
    else
      var last := offers[|offers| - 1];
      SkippedDemand(offers[..|offers| - 1], full, stage, rate)
      + if last.worker in full then TargetOf(last.ramp[stage], rate) else 0
  }

  lemma {:induction false} AcceptedPlusSkipped(offers: seq<Assignment>, full: set<WorkerId>, stage: nat, rate: bool)
    requires forall a :: a in offers ==> stage < |a.ramp| && TargetOf(a.ramp[stage], rate) >= 0
    ensures forall a :: a in Accepted(offers, full) ==> stage < |a.ramp|
    ensures Sum(Demand(Accepted(offers, full), stage, rate)) + SkippedDemand(offers, full, stage, rate)
         == Sum(Demand(offers, stage, rate))
    ensures SkippedDemand(offers, full, stage, rate) >= 0
    ensures SkippedDemand(offers, full, stage, rate) == 0 <==>
              forall a :: a in offers && a.worker in full ==> TargetOf(a.ramp[stage], rate) == 0
  {
    if offers != [] {
      var front, last := offers[..|offers| - 1], offers[|offers| - 1];
      var due := TargetOf(last.ramp[stage], rate);
      assert offers == front + [last];
      AcceptedPlusSkipped(front, full, stage, rate);
      assert Demand(offers, stage, rate) == Demand(front, stage, rate) + [due];
      SumAppend(Demand(front, stage, rate), due);
      if last.worker !in full {
        var got := Accepted(front, full);
        assert Demand(got + [last], stage, rate) == Demand(got, stage, rate) + [due];
        SumAppend(Demand(got, stage, rate), due);
      } else {
        assert Accepted(offers, full) == Accepted(front, full);
      }
    }
  }

  /**
   The slices that reach the workers add up to the requested target of a stage, VUs or rate, if
   and only if no worker with a full buffer was due anything in it: a skipped slice is not re-dealt.
   */
  lemma DeliveredIffNothingSkipped(req: Request, workers: Roster, full: set<WorkerId>, stage: nat, rate: bool)
    requires workers != [] && stage < |req.ramp| && TargetOf(req.ramp[stage], rate) >= 0
    ensures forall a :: a in Accepted(Offers(req, workers), full) ==> stage < |a.ramp|
    ensures var total, sent := TargetOf(req.ramp[stage], rate), Accepted(Offers(req, workers), full);
            Sum(Demand(sent, stage, rate)) == total <==>
              forall i :: 0 <= i < |workers| && workers[i] in full ==> Share(total, |workers|, i) == 0
  {
    var total, n := TargetOf(req.ramp[stage], rate), |workers|;
    var offers := Offers(req, workers);
    TruncModRange(total, n);
    assert forall i :: 0 <= i < n ==> offers[i].worker == workers[i] && TargetOf(offers[i].ramp[stage], rate) == Share(total, n, i);
    assert Demand(offers, stage, rate) == Shares(total, n);
    SplitExactIff(total, n);
    AcceptedPlusSkipped(offers, full, stage, rate);
    assert forall i :: 0 <= i < n ==> offers[i] in offers;
  }
}
