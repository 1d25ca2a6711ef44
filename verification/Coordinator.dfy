/**
 The coordinator's run lifecycle and admission control (internal/coordinator/service.go and
 runner.go): its state, and one function per critical section of the service mutex.

 The worker registry and the workers' send buffers have locks of their own and change while
 the service mutex is held, so every question put to them is answered by an input: a `Poll`.
 */
module Coordinator {
  import opened Collections
  import opened LoadShape

  type RunId = string
  type Time = int // milliseconds

  const ORPHAN_GRACE: Time := 30_000

  datatype Status = Queued | Running | Completed | Aborted

  /**
   `dispatched` stands for the aggregator being present and `crew` is the set of assigned
   workers; an absent time is Go's zero time.
   */
  datatype RunState = RunState(
    dispatched: bool,
    crew: set<WorkerId>,
    finished: set<WorkerId>,
    status: Status,
    reason: string,
    startedAt: Option<Time>,
    endedAt: Option<Time>,
    plannedMs: int,
    abortAt: Option<Time>,
    workersLostAt: Option<Time>,
    slotHeld: bool,
    dropped: Drops)

  /** Iterations and metric batches that workers report having dropped. */
  datatype Drops = Drops(iterations: int, metrics: int)

  const NO_DROPS := Drops(0, 0)

  datatype Request = Request(runId: RunId, desired: int, ramp: seq<Stage>)

  /** A message put on one worker's channel: its slice of the ramp. */
  datatype Assignment = Assignment(worker: WorkerId, runId: RunId, ramp: seq<Stage>, seed: nat)

  /** A list of workers as the registry returns it: no worker twice. */
  type Roster = s: seq<WorkerId> | NoDup(s)
    witness []

  /**
   The outside world during one admission attempt: whether the capacity probe found an
   eligible worker, whom the dispatch then found, and whose send buffers were full.
   */
  datatype Poll = Poll(eligible: bool, candidates: Roster, full: set<WorkerId>)

  /** A drain makes one attempt per queue length, so the length tells its attempts apart. */
  type World = nat -> Poll

  /** `sent` logs every assignment ever put on a worker channel. */
  datatype State = State(
    runs: map<RunId, RunState>,
    queue: seq<Request>,
    running: int,
    maxRuns: int,
    sent: seq<Assignment>)

  function Init(maxRuns: int): State {
    State(map[], [], 0, maxRuns, [])
  }

  // ------------------------------------------------------------------ dispatch

  datatype Outcome = Dispatched(workers: nat) | NoHealthyWorkers | BuffersFull

  function RampDurationMs(ramp: seq<Stage>): int {
    if ramp == [] then 0 else ramp[0].durationMs + RampDurationMs(ramp[1..])
  }

  function Offers(req: Request, workers: seq<WorkerId>): seq<Assignment> {
    seq(|workers|, i requires 0 <= i < |workers| =>
      Assignment(workers[i], req.runId, SliceOf(req.ramp, |workers|, i), i))
  }

  /** The offers whose worker had room in its buffer, in order. */
  function Accepted(offers: seq<Assignment>, full: set<WorkerId>): seq<Assignment> {
    if offers == [] then []
    else
      var last := offers[|offers| - 1];
      Accepted(offers[..|offers| - 1], full) + if last.worker in full then [] else [last]
  }

  function Takers(workers: seq<WorkerId>, full: set<WorkerId>): set<WorkerId> {
    set w | w in workers && w !in full
  }

  /** A dispatch that nobody took has put nothing on any channel. */
  lemma {:induction false} NothingAccepted(offers: seq<Assignment>, full: set<WorkerId>)
    requires forall a :: a in offers ==> a.worker in full
    ensures Accepted(offers, full) == []
  {
    if offers != [] {
      NothingAccepted(offers[..|offers| - 1], full);
    }
  }

  function Launched(req: Request, takers: set<WorkerId>, now: Time): RunState {
    RunState(true, takers, {}, Running, "", Some(now), None, RampDurationMs(req.ramp), None, None, true, NO_DROPS)
  }

  function Dispatch(s: State, req: Request, p: Poll, now: Time): (State, Outcome) {
    var workers := PickWorkers(p.candidates, req.desired);
    var takers := Takers(workers, p.full);
    if p.candidates == [] then (s, NoHealthyWorkers)
    else if takers == {} then (s, BuffersFull)
    else
      (s.(runs := s.runs[req.runId := Launched(req, takers, now)],
          running := s.running + 1,
          sent := s.sent + Accepted(Offers(req, workers), p.full)),
       Dispatched(|takers|))
  }

  function Drain(s: State, world: World, now: Time): State
    decreases |s.queue|
  {
    if s.queue == [] || s.running >= s.maxRuns || !world(|s.queue|).eligible then s
    else
      var (s', out) := Dispatch(s.(queue := s.queue[1..]), s.queue[0], world(|s.queue|), now);
      if out.Dispatched? then Drain(s', world, now)
      else s'.(queue := [s.queue[0]] + s'.queue)
  }

  // ------------------------------------------------------------- the run's end

  function Finalize(s: State, id: RunId, fallback: Status, world: World, now: Time): State
    requires id in s.runs
  {
    var r := s.runs[id];
    if r.endedAt.Some? then s
    else
      var ended := r.(status := if r.status == Running then fallback else r.status,
                      endedAt := Some(now), slotHeld := false);
      var s' := s.(runs := s.runs[id := ended]);
      if r.slotHeld then Drain(s'.(running := s.running - 1), world, now) else s'
  }

  /** A run's entry after a worker's Finished message; nobody asks who sent it, or how often. */
  function Reported(r: RunState, worker: WorkerId, drops: Drops): RunState {
    r.(finished := r.finished + {worker},
       dropped := Drops(r.dropped.iterations + drops.iterations, r.dropped.metrics + drops.metrics))
  }

  function WorkerFinished(s: State, worker: WorkerId, id: RunId, drops: Drops, world: World, now: Time): State {
    if id !in s.runs then s
    else
      var r := Reported(s.runs[id], worker, drops);
      var s' := s.(runs := s.runs[id := r]);
      if |r.finished| >= |r.crew| then Finalize(s', id, Completed, world, now) else s'
  }

  function ForceFinalize(s: State, id: RunId, reason: string, world: World, now: Time): State {
    if id !in s.runs || s.runs[id].endedAt.Some? || !s.runs[id].slotHeld then s
    else
      var r := s.runs[id];
      Finalize(s.(runs := s.runs[id := r.(reason := if r.reason == "" then reason else r.reason)]),
               id, Aborted, world, now)
  }

  function StopVerdict(s: State, id: RunId, now: Time): State {
    if id !in s.runs then s
    else
      var r := s.runs[id];
      var r1 := if r.status == Running then r.(status := Aborted, reason := "stopped by user") else r;
      s.(runs := s.runs[id := if r1.abortAt.None? then r1.(abortAt := Some(now)) else r1])
  }

  /** The breaker's verdict, which overrides whatever status the run has. */
  function TripVerdict(s: State, id: RunId, reason: string): State {
    if id !in s.runs then s
    else s.(runs := s.runs[id := s.runs[id].(status := Aborted, reason := reason)])
  }

  // ------------------------------------------------------------------ arrivals

  datatype Reply =
    | InvalidArgument
    | Known(crew: nat, isRunning: bool)
    | Started(crew: nat)
    | Failed(why: Outcome)
    | Enqueued(position: nat)

  function Waiting(req: Request): RunState {
    RunState(false, {}, {}, Queued, "", None, None, RampDurationMs(req.ramp), None, None, false, NO_DROPS)
  }

  function StartRun(s: State, req: Request, p: Poll, now: Time): (State, Reply) {
    if req.runId == "" then (s, InvalidArgument)
    else if req.runId in s.runs then
      (s, Known(|s.runs[req.runId].crew|, s.runs[req.runId].status == Running))
    else if s.running < s.maxRuns && p.eligible then
      var (s', out) := Dispatch(s, req, p, now);
      (s', if out.Dispatched? then Started(out.workers) else Failed(out))
    else
      (s.(queue := s.queue + [req], runs := s.runs[req.runId := Waiting(req)]),
       Enqueued(|s.queue| + 1))
  }

  function RehydrateOne(s: State, worker: WorkerId, id: RunId, now: Time): State {
    if id in s.runs && s.runs[id].dispatched then
      s.(runs := s.runs[id := s.runs[id].(crew := s.runs[id].crew + {worker})])
    else
      s.(runs := s.runs[id := RunState(true, {worker}, {}, Running, "", Some(now), None, 0, None, None, true, NO_DROPS)],
         running := s.running + 1)
  }

  function Rehydrate(s: State, worker: WorkerId, active: seq<RunId>, now: Time): State
    decreases |active|
  {
    if active == [] then s
    else Rehydrate(RehydrateOne(s, worker, active[0], now), worker, active[1..], now)
  }

  // ------------------------------------------------------------------ watchdog

  /** The reaper looks at this run, and none of its assigned workers is registered. */
  predicate Lost(r: RunState, present: set<WorkerId>) {
    r.status == Running && r.endedAt.None? && r.crew != {} && r.crew !! present
  }

  function ScanRun(r: RunState, present: set<WorkerId>, now: Time): RunState {
    if !Lost(r, present) then r.(workersLostAt := None)
    else if r.workersLostAt.None? then r.(workersLostAt := Some(now))
    else r
  }

  function Scan(s: State, present: set<WorkerId>, now: Time): State {
    s.(runs := map id | id in s.runs :: ScanRun(s.runs[id], present, now))
  }

  predicate IsOrphan(r: RunState, present: set<WorkerId>, now: Time) {
    Lost(r, present) && r.workersLostAt.Some? && now - r.workersLostAt.value >= ORPHAN_GRACE
  }

  function Orphans(s: State, present: set<WorkerId>, now: Time): set<RunId> {
    set id | id in s.runs && IsOrphan(s.runs[id], present, now)
  }

  const ORPHAN_REASON := "aborted: assigned workers disconnected"

  function ForceAll(s: State, ids: seq<RunId>, worlds: RunId -> World, now: Time): State {
    if ids == [] then s
    else
      var last := ids[|ids| - 1];
      ForceFinalize(ForceAll(s, ids[..|ids| - 1], worlds, now), last, ORPHAN_REASON, worlds(last), now)
  }

  // ------------------------------------------------------------- whole history

  /** One critical section of the service mutex. A stop's timer is a later Force. */
  datatype Event =
    | Start(req: Request, poll: Poll)
    | Register(worker: WorkerId, active: seq<RunId>)
    | Admit(world: World)
    | Finished(worker: WorkerId, run: RunId, drops: Drops, world: World)
    | Stop(run: RunId)
    | Trip(run: RunId, reason: string)
    | Force(run: RunId, reason: string, world: World)
    | Reap(present: set<WorkerId>)
    | Limit(maxRuns: int)

  datatype Entry = Entry(now: Time, event: Event)

  function Step(s: State, e: Entry): State {
    match e.event
    case Start(req, poll) => StartRun(s, req, poll, e.now).0
    case Register(worker, active) => Rehydrate(s, worker, active, e.now)
    case Admit(world) => Drain(s, world, e.now)
    case Finished(worker, run, drops, world) => WorkerFinished(s, worker, run, drops, world, e.now)
    case Stop(run) => StopVerdict(s, run, e.now)
    case Trip(run, reason) => TripVerdict(s, run, reason)
    case Force(run, reason, world) => ForceFinalize(s, run, reason, world, e.now)
    case Reap(present) => Scan(s, present, e.now)
    case Limit(n) => if n > 0 then s.(maxRuns := n) else s
  }

  ghost predicate Trace(states: seq<State>, log: seq<Entry>) {
    && |states| == |log| + 1
    && (exists n :: states[0] == Init(n))
    && forall i :: 0 <= i < |log| ==> states[i + 1] == Step(states[i], log[i])
  }
}
