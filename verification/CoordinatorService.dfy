/** The coordinator service as the object it is: fields updated in place, loops and all. */
module CoordinatorService {
  import opened Collections
  import opened LoadShape
  import opened Coordinator

  class Service {
    var runs: map<RunId, RunState>
    var queue: seq<Request>
    var running: int
    var maxRuns: int
    var sent: seq<Assignment>
    var cpuMax: real // thresholds handed to the registry with every question
    var memMax: real

    ghost function Abs(): State
      reads this
    {
      State(runs, queue, running, maxRuns, sent)
    }

    constructor ()
      ensures Abs() == Init(64) && cpuMax == memMax == 85.0
    {
      runs, queue, running, maxRuns, sent := map[], [], 0, 64, [];
      cpuMax, memMax := 85.0, 85.0;
    }

    method SetLimits(maxConcurrent: int, cpuMaxPct: real, memMaxPct: real, now: Time)
      modifies this`maxRuns, this`cpuMax, this`memMax
      ensures Abs() == Step(old(Abs()), Entry(now, Limit(maxConcurrent)))
      ensures maxRuns == if maxConcurrent > 0 then maxConcurrent else old(maxRuns)
      ensures cpuMax == cpuMaxPct && memMax == memMaxPct
    {
      if maxConcurrent > 0 {
        maxRuns := maxConcurrent;
      }
      cpuMax, memMax := cpuMaxPct, memMaxPct;
    }

    /** Offers each picked worker its slice without blocking; those with full buffers are skipped. */
    method SendAll(req: Request, workers: Roster, full: set<WorkerId>) returns (crew: set<WorkerId>)
      modifies this`sent
      ensures crew == Takers(workers, full)
      ensures sent == old(sent) + Accepted(Offers(req, workers), full)
    {
      var slices := SliceRamp(req.ramp, |workers|);
      crew := {};
      var i := 0;
      while i < |workers|
        invariant 0 <= i <= |workers|
        invariant crew == Takers(workers[..i], full)
        invariant sent == old(sent) + Accepted(Offers(req, workers)[..i], full)
      {
        var w := workers[i];
        assert Offers(req, workers)[..i + 1][..i] == Offers(req, workers)[..i];
        assert workers[..i + 1] == workers[..i] + [w] && w !in workers[..i];
        crew := crew + {w};
        if w !in full {
          sent := sent + [Assignment(w, req.runId, slices[i], i)];
        } else {
          crew := crew - {w};
        }
        i := i + 1;
      }
      assert workers[..i] == workers && Offers(req, workers)[..i] == Offers(req, workers);
    }

    method DispatchLocked(req: Request, p: Poll, now: Time) returns (out: Outcome)
      modifies this`runs, this`queue, this`running, this`sent
      ensures (Abs(), out) == Dispatch(old(Abs()), req, p, now)
    {
      if |p.candidates| == 0 {
        return NoHealthyWorkers;
      }
      var workers := PickWorkers(p.candidates, req.desired);
      var crew := SendAll(req, workers, p.full);
      if |crew| == 0 {
        assert crew == {} && forall w :: w in workers ==> w !in crew ==> w in p.full;
        NothingAccepted(Offers(req, workers), p.full);
        assert sent == old(sent);
        return BuffersFull;
      }
      runs := runs[req.runId := Launched(req, crew, now)];
      running := running + 1;
      return Dispatched(|crew|);
    }

    method DrainLocked(world: World, now: Time)
      modifies this`runs, this`queue, this`running, this`sent
      ensures Abs() == Drain(old(Abs()), world, now)
    {
      while |queue| > 0 && running < maxRuns
        invariant Drain(old(Abs()), world, now) == Drain(Abs(), world, now)
        decreases |queue|
      {
        var req := queue[0];
        if !world(|queue|).eligible {
          return;
        }
        var p := world(|queue|);
        queue := queue[1..];
        var out := DispatchLocked(req, p, now);
        if !out.Dispatched? {
          queue := [req] + queue;
          return;
        }
      }
    }

    method FinalizeLocked(id: RunId, fallback: Status, world: World, now: Time)
      requires id in runs
      modifies this`runs, this`queue, this`running, this`sent
      ensures Abs() == Finalize(old(Abs()), id, fallback, world, now)
    {
      var r := runs[id];
      if r.endedAt.Some? {
        return;
      }
      if r.status == Running {
        r := r.(status := fallback);
      }
      r := r.(endedAt := Some(now));
      if r.slotHeld {
        r := r.(slotHeld := false);
        runs := runs[id := r];
        running := running - 1;
        DrainLocked(world, now);
      } else {
        runs := runs[id := r];
      }
    }

    method OnFinished(worker: WorkerId, id: RunId, drops: Drops, world: World, now: Time)
      modifies this`runs, this`queue, this`running, this`sent
      ensures Abs() == Step(old(Abs()), Entry(now, Finished(worker, id, drops, world)))
    {
      if id !in runs {
        return;
      }
      runs := runs[id := runs[id].(finished := runs[id].finished + {worker})];
      runs := runs[id := runs[id].(dropped := Drops(runs[id].dropped.iterations + drops.iterations,
                                                    runs[id].dropped.metrics + drops.metrics))];
      assert runs == old(runs)[id := Reported(old(runs)[id], worker, drops)];
      if |runs[id].finished| >= |runs[id].crew| {
        FinalizeLocked(id, Completed, world, now);
      }
    }

    method ForceFinalizeRun(id: RunId, reason: string, world: World, now: Time)
      modifies this`runs, this`queue, this`running, this`sent
      ensures Abs() == Step(old(Abs()), Entry(now, Force(id, reason, world)))
    {
      if id !in runs || runs[id].endedAt.Some? || !runs[id].slotHeld {
        return;
      }
      if runs[id].reason == "" {
        runs := runs[id := runs[id].(reason := reason)];
      }
      assert old(runs)[id].reason != "" ==> runs[id := old(runs)[id]] == runs;
      FinalizeLocked(id, Aborted, world, now);
    }

    method RehydrateRuns(worker: WorkerId, active: seq<RunId>, now: Time)
      modifies this`runs, this`queue, this`running, this`sent
      ensures Abs() == Step(old(Abs()), Entry(now, Register(worker, active)))
    {
      var i := 0;
      while i < |active|
        invariant 0 <= i <= |active|
        invariant Rehydrate(old(Abs()), worker, active, now) == Rehydrate(Abs(), worker, active[i..], now)
      {
        var id := active[i];
        assert active[i..][1..] == active[i + 1..];
        ghost var before := Abs();
        if id in runs && runs[id].dispatched {
          runs := runs[id := runs[id].(crew := runs[id].crew + {worker})];
        } else {
          runs := runs[id := RunState(true, {worker}, {}, Running, "", Some(now), None, 0, None, None, true, NO_DROPS)];
          running := running + 1;
        }
        assert Abs() == RehydrateOne(before, worker, id, now);
        i := i + 1;
      }
    }

    method OnStartRun(req: Request, p: Poll, now: Time) returns (reply: Reply)
      modifies this`runs, this`queue, this`running, this`sent
      ensures (Abs(), reply) == StartRun(old(Abs()), req, p, now)
    {
      if req.runId == "" {
        return InvalidArgument;
      }
      if req.runId in runs {
        return Known(|runs[req.runId].crew|, runs[req.runId].status == Running);
      }
      if running < maxRuns && p.eligible {
        var out := DispatchLocked(req, p, now);
        return if out.Dispatched? then Started(out.workers) else Failed(out);
      }
      queue := queue + [req];
      runs := runs[req.runId := Waiting(req)];
      return Enqueued(|queue|);
    }

    /**
     StopRun, up to its timer, which later calls ForceFinalizeRun: the verdict, then a Stop
     message to each assigned worker that is registered and has room in its buffer.
     */
    method OnStop(id: RunId, reachable: set<WorkerId>, now: Time) returns (found: bool, told: set<WorkerId>)
      modifies this`runs
      ensures Abs() == Step(old(Abs()), Entry(now, Stop(id))) && found == (id in old(runs))
      ensures told == if found then old(runs)[id].crew * reachable else {}
    {
      found, told := id in runs, {};
      if found && runs[id].status == Running {
        runs := runs[id := runs[id].(status := Aborted, reason := "stopped by user")];
      }
      if found && runs[id].abortAt.None? {
        runs := runs[id := runs[id].(abortAt := Some(now))];
      }
      assert found ==> runs[id := runs[id]] == runs;
      if found {
        told := TellCrew(runs[id].crew, reachable);
      }
    }

    method TellCrew(crew: set<WorkerId>, reachable: set<WorkerId>) returns (told: set<WorkerId>)
      ensures told == crew * reachable
    {
      told := {};
      var rest := crew;
      while rest != {}
        invariant rest <= crew && told == (crew - rest) * reachable
        decreases |rest|
      {
        var w := PickOne(rest);
        rest := rest - {w};
        if w in reachable {
          told := told + {w};
        }
      }
    }

    /** The breaker's callback: record the verdict, then go through the ordinary stop. */
    method OnAutoStop(id: RunId, reason: string, reachable: set<WorkerId>, now: Time) returns (told: set<WorkerId>)
      modifies this`runs
      ensures Abs() == Step(Step(old(Abs()), Entry(now, Trip(id, reason))), Entry(now, Stop(id)))
      ensures told == if id in old(runs) then old(runs)[id].crew * reachable else {}
    {
      if id in runs {
        runs := runs[id := runs[id].(status := Aborted, reason := reason)];
      }
      var found;
      found, told := OnStop(id, reachable, now);
    }

    /** The reaper's look at one run: its new state, and whether its grace has run out. */
    method ScanEntry(r: RunState, present: set<WorkerId>, now: Time) returns (r': RunState, orphan: bool)
      ensures r' == ScanRun(r, present, now) && orphan == IsOrphan(r, present, now)
    {
      if r.status != Running || r.endedAt.Some? || |r.crew| == 0 {
        return r.(workersLostAt := None), false;
      }
      var rest := r.crew;
      while rest != {}
        invariant rest <= r.crew && (r.crew - rest) !! present
        decreases |rest|
      {
        var w := PickOne(rest);
        if w in present {
          return r.(workersLostAt := None), false;
        }
        rest := rest - {w};
      }
      if r.workersLostAt.None? {
        return r.(workersLostAt := Some(now)), false;
      }
      return r, now - r.workersLostAt.value >= ORPHAN_GRACE;
    }

    method ScanLocked(present: set<WorkerId>, now: Time) returns (orphaned: seq<RunId>)
      modifies this`runs
      ensures runs == Scan(old(Abs()), present, now).runs
      ensures NoDup(orphaned) && (set id | id in orphaned) == Orphans(old(Abs()), present, now)
    {
      orphaned := [];
      var rest := runs.Keys;
      while rest != {}
        invariant rest <= old(runs).Keys && runs.Keys == old(runs).Keys
        invariant forall id :: id in runs ==>
                    runs[id] == if id in rest then old(runs)[id] else ScanRun(old(runs)[id], present, now)
        invariant NoDup(orphaned)
        invariant forall id :: id in orphaned <==>
                    id in old(runs) && id !in rest && IsOrphan(old(runs)[id], present, now)
        decreases |rest|
      {
        var id := PickOne(rest);
        rest := rest - {id};
        var r, orphan := ScanEntry(runs[id], present, now);
        runs := runs[id := r];
        if orphan {
          orphaned := orphaned + [id];
        }
      }
    }

    method ReapOnce(present: set<WorkerId>, now: Time, worlds: RunId -> World) returns (orphaned: seq<RunId>)
      modifies this`runs, this`queue, this`running, this`sent
      ensures NoDup(orphaned) && (set id | id in orphaned) == Orphans(old(Abs()), present, now)
      ensures Abs() == ForceAll(Scan(old(Abs()), present, now), orphaned, worlds, now)
    {
      orphaned := ScanLocked(present, now);
      ghost var scanned := Abs();
      var i := 0;
      while i < |orphaned|
        invariant 0 <= i <= |orphaned|
        invariant Abs() == ForceAll(scanned, orphaned[..i], worlds, now)
      {
        assert orphaned[..i + 1][..i] == orphaned[..i];
        ForceFinalizeRun(orphaned[i], ORPHAN_REASON, worlds(orphaned[i]), now);
        i := i + 1;
      }
      assert orphaned[..i] == orphaned;
    }
  }
}
