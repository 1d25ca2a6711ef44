/**
 The rendezvous barrier (internal/worker/executor/barrier.go) as a protocol: one step per
 stretch of code that holds the mutex, in any interleaving of callers, timers and wake-ups.
 */
module Rendezvous {
  type Call = nat // one invocation of wait()

  datatype Cause = Gathered | TimedOut | Cancelled

  datatype Release = Release(cause: Cause, party: set<Call>)

  /** `entered` gives the generation each call joined; `releases[g]` is how generation g opened. */
  datatype State = State(
    waiting: int,
    gen: nat,
    entered: map<Call, nat>,
    blocked: set<Call>,
    returned: set<Call>,
    releases: seq<Release>)

  const INIT := State(0, 0, map[], {}, {}, [])

  function Party(s: State, g: nat): set<Call> {
    set c | c in s.entered && s.entered[c] == g
  }

  function Open(s: State, cause: Cause): State {
    s.(waiting := 0, gen := s.gen + 1, releases := s.releases + [Release(cause, Party(s, s.gen))])
  }

  function Return(s: State, c: Call): State {
    s.(blocked := s.blocked - {c}, returned := s.returned + {c})
  }

  datatype Event =
    | Enter(call: Call, cancelled: bool)  // wait() up to its first cond.Wait
    | Timer(call: Call)                   // the call's watchdog runs, possibly long after
    | Wake(call: Call, cancelled: bool)   // the loop test after cond.Wait returns

  predicate Enabled(s: State, e: Event) {
    match e
    case Enter(c, _) => c !in s.entered
    case Timer(c) => c in s.entered
    case Wake(c, _) => c in s.blocked && c in s.entered
  }

  function Step(target: int, s: State, e: Event): State
    requires Enabled(s, e)
  {
    match e
    case Enter(c, cancelled) =>
      var joined := s.(entered := s.entered[c := s.gen], waiting := s.waiting + 1);
      if joined.waiting >= target then Return(Open(joined, Gathered), c)
      else if cancelled then Return(Open(joined, Cancelled), c)
      else joined.(blocked := joined.blocked + {c})
    case Timer(c) =>
      if s.gen == s.entered[c] then Open(s, TimedOut) else s
    case Wake(c, cancelled) =>
      if s.gen != s.entered[c] then Return(s, c)
      else if cancelled then Return(Open(s, Cancelled), c)
      else s
  }

  ghost predicate Trace(target: int, states: seq<State>, events: seq<Event>) {
    && |states| == |events| + 1
    && states[0] == INIT
    && forall i :: 0 <= i < |events| ==>
         Enabled(states[i], events[i]) && states[i + 1] == Step(target, states[i], events[i])
  }

  function BlockedIn(s: State, g: nat): set<Call>
  {
    set c | c in s.blocked && c in s.entered && s.entered[c] == g
  }

  /** What has been decided: who joined which generation, and how each one opened. */
  ghost predicate History(target: int, s: State) {
    && |s.releases| == s.gen
    && s.blocked !! s.returned
    && s.blocked + s.returned == s.entered.Keys
    && (forall c :: c in s.entered ==> s.entered[c] <= s.gen)
    && (forall c :: c in s.returned ==> s.entered[c] < s.gen)
    && (forall g :: 0 <= g < s.gen ==> s.releases[g].party == Party(s, g))
    && (forall g :: 0 <= g < s.gen ==> s.releases[g].cause == Gathered ==> FullParty(target, s.releases[g].party))
  }

  ghost predicate FullParty(target: int, party: set<Call>) {
    |party| == if target > 1 then target else 1
  }

  ghost predicate Inv(target: int, s: State) {
    && History(target, s)
    && s.waiting == |BlockedIn(s, s.gen)|
    && (s.waiting == 0 || s.waiting < target)
  }

  lemma OpenKeeps(target: int, s: State, cause: Cause)
    requires History(target, s)
    requires cause == Gathered ==> FullParty(target, Party(s, s.gen))
    ensures Inv(target, Open(s, cause))
  {
    var o := Open(s, cause);
    assert BlockedIn(o, o.gen) == {};
    forall g | 0 <= g < o.gen ensures o.releases[g].party == Party(o, g) {
      assert Party(o, g) == Party(s, g);
    }
  }

  lemma ReturnKeeps(target: int, s: State, c: Call)
    requires Inv(target, s) && c in s.blocked && s.entered[c] < s.gen
    ensures Inv(target, Return(s, c))
  {
    var r := Return(s, c);
    assert BlockedIn(r, r.gen) == BlockedIn(s, s.gen);
    forall g | 0 <= g < s.gen ensures Party(r, g) == Party(s, g) {
    }
  }

  /** Joining the current generation adds one to its blocked callers and disturbs no other. */
  lemma JoinKeeps(target: int, s: State, c: Call)
    requires Inv(target, s) && c !in s.entered
    ensures var j := s.(entered := s.entered[c := s.gen], waiting := s.waiting + 1, blocked := s.blocked + {c});
            History(target, j) && j.waiting == |BlockedIn(j, j.gen)| && Party(j, j.gen) == BlockedIn(j, j.gen)
  {
    JoinHistory(target, s, c);
    JoinCounts(s, c);
    PartyIsBlocked(target, s.(entered := s.entered[c := s.gen], waiting := s.waiting + 1, blocked := s.blocked + {c}));
  }

  lemma JoinHistory(target: int, s: State, c: Call)
    requires History(target, s) && c !in s.entered
    ensures History(target, s.(entered := s.entered[c := s.gen], waiting := s.waiting + 1, blocked := s.blocked + {c}))
  {
    var j := s.(entered := s.entered[c := s.gen], waiting := s.waiting + 1, blocked := s.blocked + {c});
    forall g | 0 <= g < s.gen ensures Party(j, g) == Party(s, g) {
    }
  }

  lemma JoinCounts(s: State, c: Call)
    requires s.waiting == |BlockedIn(s, s.gen)| && c !in s.entered && c !in s.blocked
    ensures var j := s.(entered := s.entered[c := s.gen], waiting := s.waiting + 1, blocked := s.blocked + {c});
            j.waiting == |BlockedIn(j, j.gen)|
  {
    var j := s.(entered := s.entered[c := s.gen], waiting := s.waiting + 1, blocked := s.blocked + {c});
    assert BlockedIn(j, j.gen) == BlockedIn(s, s.gen) + {c};
  }

  /** While a generation is closed, its party is blocked. */
  lemma PartyIsBlocked(target: int, s: State)
    requires History(target, s)
    ensures Party(s, s.gen) == BlockedIn(s, s.gen)
  {
    forall c | c in s.entered && s.entered[c] == s.gen ensures c in s.blocked {
      assert c in s.blocked + s.returned;
    }
  }

  lemma EnterKeeps(target: int, s: State, c: Call, cancelled: bool)
    requires Inv(target, s) && c !in s.entered
    ensures Inv(target, Step(target, s, Enter(c, cancelled)))
  {
    JoinKeeps(target, s, c);
    var j := s.(entered := s.entered[c := s.gen], waiting := s.waiting + 1, blocked := s.blocked + {c});
    if j.waiting >= target || cancelled {
      var cause := if j.waiting >= target then Gathered else Cancelled;
      OpenKeeps(target, j, cause);
      ReturnKeeps(target, Open(j, cause), c);
      var joined := s.(entered := s.entered[c := s.gen], waiting := s.waiting + 1);
      assert Party(joined, s.gen) == Party(j, s.gen);
      assert Return(Open(joined, cause), c) == Return(Open(j, cause), c);
    }
  }

  lemma StepKeeps(target: int, s: State, e: Event)
    requires Inv(target, s) && Enabled(s, e)
    ensures Inv(target, Step(target, s, e))
  {
    match e
    case Enter(c, cancelled) =>
      EnterKeeps(target, s, c, cancelled);
    case Timer(c) =>
      OpenKeeps(target, s, TimedOut);
    case Wake(c, cancelled) =>
      if s.gen != s.entered[c] {
        ReturnKeeps(target, s, c);
      } else if cancelled {
        OpenKeeps(target, s, Cancelled);
        ReturnKeeps(target, Open(s, Cancelled), c);
      }
  }

  /**
   The barrier's promises, in every state of every interleaving: the counter is the number
   of callers blocked in the current generation and stays below the target; nobody has
   returned whose generation is still closed; a generation that opened by gathering had
   exactly `target` participants, and its membership never changes afterwards.
   */
  lemma {:induction false} BarrierSafe(target: int, states: seq<State>, events: seq<Event>, i: nat)
    requires Trace(target, states, events) && i < |states|
    ensures Inv(target, states[i])
  {
    if i == 0 {
      assert BlockedIn(INIT, 0) == {};
    } else {
      BarrierSafe(target, states, events, i - 1);
      StepKeeps(target, states[i - 1], events[i - 1]);
    }
  }

  /**
   A watchdog acts only on the generation it was armed in: whenever one fires late, later
   generations stay shut and their callers stay counted.
   */
  lemma StaleTimerIsHarmless(target: int, states: seq<State>, events: seq<Event>, i: nat)
    requires Trace(target, states, events) && i < |events| && events[i].Timer?
    ensures var c := events[i].call;
            if states[i].gen == states[i].entered[c]
            then c in states[i].blocked && states[i + 1].gen == states[i].gen + 1
            else states[i + 1] == states[i]
  {
    BarrierSafe(target, states, events, i);
  }

  /**
   What opens a generation: the caller that completes the party, a caller that finds its context
   done, and the timer of a caller still in it. Nothing else does.
   */
  ghost predicate Opens(target: int, s: State, e: Event)
    requires Enabled(s, e)
  {
    match e
    case Enter(_, cancelled) => |BlockedIn(s, s.gen)| + 1 >= target || cancelled
    case Timer(c) => c in s.blocked && s.entered[c] == s.gen
    case Wake(c, cancelled) => s.entered[c] == s.gen && cancelled
  }

  /** In every interleaving, each step opens one generation or none, and exactly for these reasons. */
  lemma OpensIff(target: int, states: seq<State>, events: seq<Event>, i: nat)
    requires Trace(target, states, events) && i < |events|
    ensures states[i + 1].gen == states[i].gen + if Opens(target, states[i], events[i]) then 1 else 0
  {
    BarrierSafe(target, states, events, i);
  }

  /**
   Who gets through: a caller that opens its generation as it enters, and a woken one whose
   generation is open by then, opened by itself or by anybody else. All others stay blocked.
   */
  lemma GetsThroughIff(target: int, states: seq<State>, events: seq<Event>, i: nat)
    requires Trace(target, states, events) && i < |events|
    ensures var e, s, s' := events[i], states[i], states[i + 1];
            match e
            case Enter(c, _) =>
              s'.entered == s.entered[c := s.gen]
              && if s'.gen > s.gen then s'.returned == s.returned + {c} && s'.blocked == s.blocked
                 else s'.returned == s.returned && s'.blocked == s.blocked + {c}
            case Timer(_) => s'.entered == s.entered && s'.returned == s.returned && s'.blocked == s.blocked
            case Wake(c, _) =>
              s'.entered == s.entered
              && if s.entered[c] < s'.gen then s'.returned == s.returned + {c} && s'.blocked == s.blocked - {c}
                 else s'.returned == s.returned && s'.blocked == s.blocked
  {
    BarrierSafe(target, states, events, i);
  }

  /** Releases are history: once opened, a generation's cause and party are fixed for good. */
  lemma {:induction false} ReleasesAreFinal(target: int, states: seq<State>, events: seq<Event>, i: nat, j: nat)
    requires Trace(target, states, events) && i <= j < |states|
    ensures states[i].releases <= states[j].releases
    ensures states[i].returned <= states[j].returned
    decreases j
  {
    if i < j {
      ReleasesAreFinal(target, states, events, i, j - 1);
    }
  }

  /** The barrier object itself; the call sets are specification state. */
  class Barrier {
    const target: int
    var waiting: int
    var gen: nat
    ghost var entered: map<Call, nat>
    ghost var blocked: set<Call>
    ghost var returned: set<Call>
    ghost var releases: seq<Release>

    ghost function Abs(): State
      reads this
    {
      State(waiting, gen, entered, blocked, returned, releases)
    }

    constructor (target: int)
      ensures Abs() == INIT && this.target == target
    {
      this.target := target;
      waiting, gen := 0, 0;
      entered, blocked, returned, releases := map[], {}, {}, [];
    }

    method ReleaseAll(ghost cause: Cause)
      modifies this
      ensures Abs() == Open(old(Abs()), cause)
    {
      releases := releases + [Release(cause, Party(Abs(), gen))];
      waiting := 0;
      gen := gen + 1;
    }

    method EnterWait(ghost c: Call, cancelled: bool) returns (mine: nat, leaves: bool)
      requires Enabled(Abs(), Enter(c, cancelled))
      modifies this
      ensures Abs() == Step(target, old(Abs()), Enter(c, cancelled))
      ensures mine == entered[c] && (leaves <==> gen != mine)
    {
      mine := gen;
      entered := entered[c := gen];
      waiting := waiting + 1;
      if waiting >= target {
        ReleaseAll(Gathered);
        leaves := true;
        blocked, returned := blocked - {c}, returned + {c};
      } else if cancelled {
        ReleaseAll(Cancelled);
        leaves := true;
        blocked, returned := blocked - {c}, returned + {c};
      } else {
        leaves := false;
        blocked := blocked + {c};
      }
    }

    method TimerFires(ghost c: Call, mine: nat)
      requires Enabled(Abs(), Timer(c)) && mine == entered[c]
      modifies this
      ensures Abs() == Step(target, old(Abs()), Timer(c))
    {
      if gen == mine {
        ReleaseAll(TimedOut);
      }
    }

    method WakeUp(ghost c: Call, mine: nat, cancelled: bool) returns (leaves: bool)
      requires Enabled(Abs(), Wake(c, cancelled)) && mine == entered[c]
      modifies this
      ensures Abs() == Step(target, old(Abs()), Wake(c, cancelled))
      ensures leaves <==> gen != mine
    {
      if gen != mine {
        blocked, returned := blocked - {c}, returned + {c};
        return true;
      }
      if cancelled {
        ReleaseAll(Cancelled);
        blocked, returned := blocked - {c}, returned + {c};
        return true;
      }
      return false;
    }
  }
}
