/**
 What the two circuit breakers share: the three-state gate, admission, and the handling of probes.
 Admission and result are separate critical sections, so results of old calls arrive at any later time.
 */
module BreakerGate {

  datatype Mode = Closed | Open | HalfOpen

  /** Vanished is a call whose goroutine ends with runtime.Goexit: its result is never recorded and nothing recovers. */
  datatype Outcome = Success | Failure | Cancelled | Panic | Vanished

  datatype Gate = Gate(mode: Mode, openedAt: int, halfOpenInFlight: int)

  datatype Config = Config(resetTimeout: int, maxHalfOpen: int)

  datatype Admission = Refused | AsCall | AsProbe

  function CanExecute(cfg: Config, g: Gate, now: int): (Gate, Admission) {
    match g.mode
    case Closed => (g, AsCall)
    case Open =>
      if now - g.openedAt > cfg.resetTimeout then (g.(mode := HalfOpen, halfOpenInFlight := 1), AsProbe)
      else (g, Refused)
    case HalfOpen =>
      if g.halfOpenInFlight < cfg.maxHalfOpen then (g.(halfOpenInFlight := g.halfOpenInFlight + 1), AsProbe)
      else (g, Refused)
  }

  function DecrementHalfOpen(g: Gate): Gate {
    g.(halfOpenInFlight := if g.halfOpenInFlight - 1 < 0 then 0 else g.halfOpenInFlight - 1)
  }

  function Trip(g: Gate, now: int): Gate {
    g.(mode := Open, openedAt := now)
  }

  /** The end of a probe, whatever the mode is by then. */
  function ProbeEnds(g: Gate, outcome: Outcome, now: int): Gate {
    var h := DecrementHalfOpen(g);
    match outcome
    case Success => h.(mode := Closed)
    case Cancelled => h
    case Failure => Trip(h, now)
    case Panic => Trip(h, now)
    case Vanished => g
  }

  // ----- a breaker under interleaving -----

  /** A breaker is a gate and a memory of outcomes; `judge` notes one and tells whether it trips the gate. */
  datatype Kind<!M> = Kind(gate: Config, empty: M, judge: (M, Outcome, int) -> (M, bool))

  predicate Sane<M>(k: Kind<M>) {
    0 < k.gate.resetTimeout && 0 < k.gate.maxHalfOpen
  }

  /** The gate, the clock, the memory, and the calls that have been admitted but have not ended. */
  datatype System<M> = System(gate: Gate, clock: int, probes: nat, calls: nat, memory: M)

  datatype Action = Pass(elapsed: nat) | Call | End(isProbe: bool, outcome: Outcome)

  predicate Counts<M>(s: System<M>, outcome: Outcome) {
    s.gate.mode.Closed? && !outcome.Cancelled? && !outcome.Vanished?
  }

  function Step<M>(k: Kind<M>, s: System<M>, a: Action): System<M> {
    match a
    case Pass(elapsed) => s.(clock := s.clock + elapsed)
    case Call =>
      var (g, admission) := CanExecute(k.gate, s.gate, s.clock);
      (match admission
       case Refused => s.(gate := g)
       case AsCall => s.(gate := g, calls := s.calls + 1)
       case AsProbe => s.(gate := g, probes := s.probes + 1))
    case End(true, outcome) =>
      if s.probes == 0 then s
      else
        s.(gate := ProbeEnds(s.gate, outcome, s.clock), probes := s.probes - 1,
           memory := if outcome.Success? then k.empty else s.memory)
    case End(false, outcome) =>
      if s.calls == 0 then s
      else if !Counts(s, outcome) then s.(calls := s.calls - 1)
      else
        var (m, trips) := k.judge(s.memory, outcome, s.clock);
        s.(gate := if trips then Trip(s.gate, s.clock) else s.gate, calls := s.calls - 1, memory := m)
  }

  function Run<M>(k: Kind<M>, s: System<M>, actions: seq<Action>): System<M>
    decreases |actions|
  {
    if actions == [] then s else Run(k, Step(k, s, actions[0]), actions[1..])
  }

  function Start<M>(k: Kind<M>, clock: int): System<M> {
    System(Gate(Closed, 0, 0), clock, 0, 0, k.empty)
  }

  // ----- the history, told from the run alone -----

  datatype Record = Record(ts: int, failed: bool)

  /**
   A result of a call counts while the breaker is closed, unless it was cancelled or lost; a good probe wipes the
   slate.
   */
  ghost function Recorded<M>(s: System<M>, a: Action, history: seq<Record>): seq<Record> {
    match a
    case End(false, Success) => if s.calls > 0
        && s.gate.mode.Closed? then history + [Record(s.clock, false)] else history
    case End(false, Failure) => if s.calls > 0
        && s.gate.mode.Closed? then history + [Record(s.clock, true)] else history
    case End(false, Panic) => if s.calls > 0 && s.gate.mode.Closed? then history + [Record(s.clock, true)] else history
    case End(true, Success) => if s.probes > 0 then [] else history
    case _ => history
  }

  ghost function History<M>(k: Kind<M>, s: System<M>, actions: seq<Action>, history: seq<Record>): seq<Record>
    decreases |actions|
  {
    if actions == [] then history
    else History(k, Step(k, s, actions[0]), actions[1..], Recorded(s, actions[0], history))
  }

  /** The history of a run from the start. */
  ghost function Past<M>(k: Kind<M>, clock: int, actions: seq<Action>): seq<Record> {
    History(k, Start(k, clock), actions, [])
  }

  lemma {:induction false} RunAppend<M>(k: Kind<M>, s: System<M>, a: seq<Action>, b: seq<Action>)
    ensures Run(k, s, a + b) == Run(k, Run(k, s, a), b)
    decreases |a|
  {
    hide Step;
    if a == [] {
      assert a + b == b;
    } else {
      assert (a + b)[1..] == a[1..] + b;
      RunAppend(k, Step(k, s, a[0]), a[1..], b);
    }
  }

  lemma RunTwo<M>(k: Kind<M>, s: System<M>, a: Action, b: Action)
    ensures Run(k, s, [a, b]) == Step(k, Step(k, s, a), b)
  {
    hide Step;
    assert [a, b][1..] == [b];
    assert Run(k, Step(k, s, a), [b]) == Run(k, Step(k, Step(k, s, a), b), []);
  }

  // ----- one probe at a time -----

  ghost predicate Exact<M>(s: System<M>) {
    s.probes == s.gate.halfOpenInFlight
  }

  /** At most one probe is in flight, and none outside HalfOpen; it is counted, though it may no longer be there. */
  ghost predicate AtMostOne<M>(s: System<M>) {
    s.probes <= s.gate.halfOpenInFlight <= 1 && (!s.gate.mode.HalfOpen? ==> s.gate.halfOpenInFlight == 0)
  }

  ghost predicate LegalMove(from: Mode, to: Mode) {
    from == to || (from.Closed? && to.Open?) || (from.Open? && to.HalfOpen?) || (from.HalfOpen? && !to.HalfOpen?)
  }

  predicate Vanishes(a: Action) {
    a.End? && a.isProbe && a.outcome.Vanished?
  }

  ghost predicate NoProbeVanishes(actions: seq<Action>) {
    forall i :: 0 <= i < |actions| ==> !Vanishes(actions[i])
  }

  /**
   With one probe allowed, every step moves along one of the four arrows, and the count stays exact unless a probe
   vanishes.
   */
  lemma StepSingleProbe<M>(k: Kind<M>, s: System<M>, a: Action)
    requires k.gate.maxHalfOpen == 1 && AtMostOne(s)
    ensures AtMostOne(Step(k, s, a)) && LegalMove(s.gate.mode, Step(k, s, a).gate.mode)
    ensures Exact(s) && !Vanishes(a) ==> Exact(Step(k, s, a))
  {
  }

  ghost predicate LegalThroughout<M>(k: Kind<M>, s: System<M>, actions: seq<Action>)
    decreases |actions|
  {
    actions == [] ||
    (LegalMove(s.gate.mode, Step(k, s, actions[0]).gate.mode)
     && LegalThroughout(k, Step(k, s, actions[0]), actions[1..]))
  }

  lemma {:induction false} RunSingleProbe<M>(k: Kind<M>, s: System<M>, actions: seq<Action>)
    requires k.gate.maxHalfOpen == 1 && AtMostOne(s)
    ensures AtMostOne(Run(k, s, actions)) && LegalThroughout(k, s, actions)
    ensures Exact(s) && NoProbeVanishes(actions) ==> Exact(Run(k, s, actions))
    decreases |actions|
  {
    hide Step, AtMostOne, LegalMove, Exact, Vanishes;
    if actions != [] {
      StepSingleProbe(k, s, actions[0]);
      RunSingleProbe(k, Step(k, s, actions[0]), actions[1..]);
    }
  }

  /**
   In every interleaving from the start: at most one probe, none outside HalfOpen, legal moves, and an exact count.
   */
  lemma OneProbeAtATime<M>(k: Kind<M>, clock: int, actions: seq<Action>)
    requires k.gate.maxHalfOpen == 1
    ensures AtMostOne(Run(k, Start(k, clock), actions)) && LegalThroughout(k, Start(k, clock), actions)
    ensures NoProbeVanishes(actions) ==> Exact(Run(k, Start(k, clock), actions))
  {
    hide Run, LegalThroughout;
    RunSingleProbe(k, Start(k, clock), actions);
  }

  lemma {:induction false} ClockAdvances<M>(k: Kind<M>, s: System<M>, actions: seq<Action>)
    ensures s.clock <= Run(k, s, actions).clock
    decreases |actions|
  {
    if actions != [] {
      ClockAdvances(k, Step(k, s, actions[0]), actions[1..]);
    }
  }

  /**
   After a trip at `openedAt`, nothing is admitted and nothing reopens or closes the gate until more than resetTimeout
   later.
   */
  lemma {:induction false} TripHolds<M>(k: Kind<M>, s: System<M>, actions: seq<Action>)
    requires k.gate.maxHalfOpen == 1 && AtMostOne(s) && s.gate.mode.Open?
    requires Run(k, s, actions).clock - s.gate.openedAt <= k.gate.resetTimeout
    ensures var t := Run(k, s, actions); t.gate == s.gate && t.probes == 0 && t.calls <= s.calls
    decreases |actions|
  {
    if actions != [] {
      var t := Step(k, s, actions[0]);
      ClockAdvances(k, t, actions[1..]);
      StepSingleProbe(k, s, actions[0]);
      TripHolds(k, t, actions[1..]);
    }
  }

  /**
   A probe that fails or panics opens the gate at once; one that succeeds closes it; one that is cancelled leaves it.
   */
  lemma ProbeDecides<M>(k: Kind<M>, s: System<M>, outcome: Outcome)
    requires s.probes > 0
    ensures var t := Step(k, s, End(true, outcome));
            && t.probes == s.probes - 1 && t.calls == s.calls && t.clock == s.clock
            && (outcome.Failure? || outcome.Panic? ==> t.gate.mode.Open? && t.gate.openedAt == s.clock)
            && (outcome.Success? ==> t.gate.mode.Closed?)
            && (outcome.Cancelled? || outcome.Vanished? ==> t.gate.mode == s.gate.mode)
            && (!outcome.Failure? && !outcome.Panic? ==> t.gate.openedAt == s.gate.openedAt)
            && (outcome.Vanished? ==> t.gate.halfOpenInFlight == s.gate.halfOpenInFlight)
            && (!outcome.Vanished? && 0 < s.gate.halfOpenInFlight ==>
                  t.gate.halfOpenInFlight == s.gate.halfOpenInFlight - 1)
            && (!outcome.Vanished? && s.gate.halfOpenInFlight <= 0 ==> t.gate.halfOpenInFlight == 0)
  {
  }

  /** A call that ends is over; unless it counts, it leaves everything else as it was. */
  lemma CallEnds<M>(k: Kind<M>, s: System<M>, outcome: Outcome)
    requires s.calls > 0
    ensures var t := Step(k, s, End(false, outcome));
            && t.calls == s.calls - 1 && t.probes == s.probes && t.clock == s.clock
            && t.gate.halfOpenInFlight == s.gate.halfOpenInFlight
            && (!s.gate.mode.Closed? || outcome.Cancelled? || outcome.Vanished? ==> t == s.(calls := s.calls - 1))
  {
  }

  /** What a call meets: a closed gate lets it through, a half-open one as a probe while there is room for probes. */
  lemma GateDecides<M>(k: Kind<M>, s: System<M>)
    ensures var t := Step(k, s, Call);
            && (t.calls == s.calls + 1 <==> s.gate.mode.Closed?)
            && (t.probes == s.probes + 1 <==>
                  || (s.gate.mode.Open? && s.clock > s.gate.openedAt + k.gate.resetTimeout)
                  || (s.gate.mode.HalfOpen? && s.gate.halfOpenInFlight < k.gate.maxHalfOpen))
            && (t.probes == s.probes + 1 ==> t.gate.mode.HalfOpen? && t.calls == s.calls)
            && (t.probes != s.probes + 1 && t.calls != s.calls + 1 ==> t == s)
  {
  }

  /** In every run the counter stays between zero and the number of probes allowed. */
  lemma {:induction false} CounterInRange<M>(k: Kind<M>, s: System<M>, actions: seq<Action>)
    requires Sane(k) && 0 <= s.gate.halfOpenInFlight <= k.gate.maxHalfOpen
    ensures 0 <= Run(k, s, actions).gate.halfOpenInFlight <= k.gate.maxHalfOpen
    decreases |actions|
  {
    if actions != [] {
      CounterInRange(k, Step(k, s, actions[0]), actions[1..]);
    }
  }

  // ----- probes that vanish -----

  /** Half-open, with the counter at its limit and no probe left that could bring it down. */
  ghost predicate Stuck<M>(k: Kind<M>, s: System<M>) {
    s.gate.mode.HalfOpen? && s.probes == 0 && k.gate.maxHalfOpen <= s.gate.halfOpenInFlight
  }

  /** Such a breaker never changes again and refuses every call, for ever. */
  lemma {:induction false} StuckForever<M>(k: Kind<M>, s: System<M>, actions: seq<Action>)
    requires Stuck(k, s)
    ensures var t := Run(k, s, actions); t.gate == s.gate && t.probes == 0 && t.calls <= s.calls
    decreases |actions|
  {
    if actions != [] {
      StuckForever(k, Step(k, s, actions[0]), actions[1..]);
    }
  }

  /**
   With one probe allowed, whenever a probe vanishes the breaker stays half-open and admits nothing in any later run.
   */
  lemma VanishedProbeRefusesForever<M>(k: Kind<M>, clock: int, before: seq<Action>, after: seq<Action>)
    requires k.gate.maxHalfOpen == 1 && Run(k, Start(k, clock), before).probes > 0
    ensures var s := Run(k, Start(k, clock), before);
            var t := Run(k, Step(k, s, End(true, Vanished)), after);
            t.gate == s.gate && t.gate.mode.HalfOpen? && t.probes == 0 && t.calls <= s.calls
  {
    hide Run;
    OneProbeAtATime(k, clock, before);
    StuckForever(k, Step(k, Run(k, Start(k, clock), before), End(true, Vanished)), after);
  }

  /** As many vanished probes as are allowed at a time leave any breaker that way. */
  lemma {:induction false} ProbesVanish<M>(k: Kind<M>, s: System<M>) returns (actions: seq<Action>)
    requires s.gate.mode.HalfOpen? && s.probes == 0
    ensures Stuck(k, Run(k, s, actions))
    decreases k.gate.maxHalfOpen - s.gate.halfOpenInFlight
  {
    actions := [];
    if s.gate.halfOpenInFlight < k.gate.maxHalfOpen {
      var two := [Call, End(true, Vanished)];
      RunTwo(k, s, Call, End(true, Vanished));
      var rest := ProbesVanish(k, Step(k, Step(k, s, Call), End(true, Vanished)));
      RunAppend(k, s, two, rest);
      actions := two + rest;
    }
  }

  // ----- the exact conditions -----

  /** The run takes the breaker from its start to a trip, with nothing in flight but calls. */
  ghost predicate Tripped<M>(k: Kind<M>, clock: int, trip: seq<Action>) {
    var s := Run(k, Start(k, clock), trip);
    NoProbeVanishes(trip) && s.gate.mode.Open? && s.probes == 0 && s.gate.openedAt == s.clock
  }

  /** A probe has just been let in. */
  function Probing<M>(k: Kind<M>): seq<Action>
    requires Sane(k)
  {
    [Pass(k.gate.resetTimeout + 1), Call]
  }

  lemma ProbingRuns<M>(k: Kind<M>, s: System<M>)
    requires Sane(k) && s.gate.mode.Open? && s.gate.openedAt == s.clock
    ensures Run(k, s, Probing(k)) ==
            s.(clock := s.clock + k.gate.resetTimeout + 1, probes := s.probes + 1,
               gate := Gate(HalfOpen, s.gate.openedAt, 1))
  {
    RunTwo(k, s, Pass(k.gate.resetTimeout + 1), Call);
  }

  /** From any trip on, a breaker can get stuck, however many probes it allows. */
  lemma VanishedProbesStick<M>(k: Kind<M>, clock: int, trip: seq<Action>) returns (actions: seq<Action>)
    requires Sane(k) && Tripped(k, clock, trip)
    ensures Stuck(k, Run(k, Start(k, clock), trip + actions))
  {
    hide Run, Step;
    var s := Run(k, Start(k, clock), trip);
    var half := Run(k, s, Probing(k));
    ProbingRuns(k, s);
    var gone := OneVanishes(k, half);
    var rest := ProbesVanish(k, gone);
    RunAppend(k, s, Probing(k), [End(true, Vanished)]);
    RunAppend(k, s, Probing(k) + [End(true, Vanished)], rest);
    actions := Probing(k) + [End(true, Vanished)] + rest;
    RunAppend(k, Start(k, clock), trip, actions);
  }

  lemma OneVanishes<M>(k: Kind<M>, s: System<M>) returns (t: System<M>)
    requires s.gate.mode.HalfOpen? && s.probes == 1
    ensures t == Run(k, s, [End(true, Vanished)]) && t.gate == s.gate && t.probes == 0
  {
    var a := End(true, Vanished);
    assert [a][1..] == [];
    assert Run(k, Step(k, s, a), []) == Step(k, s, a);
    t := Step(k, s, a);
  }

  /**
   With two probes allowed, one fails and reopens the breaker. The other may succeed at once, which closes it again, or
   stay out until the next probe is let in, and then it is no longer counted.
   */
  lemma ProbesCross<M>(k: Kind<M>, s: System<M>)
    requires Sane(k) && 2 <= k.gate.maxHalfOpen
    requires s.gate.mode.Open? && s.probes == 0 && s.gate.openedAt == s.clock
    ensures var t := Run(k, s, Probing(k) + [Call, End(true, Failure)]);
            var u := Run(k, t, [End(true, Success), Call]);
            && t.gate.mode.Open? && u.clock == t.clock == t.gate.openedAt
            && u.gate.mode.Closed? && u.calls == t.calls + 1
            && !Exact(Run(k, t, Probing(k)))
  {
    hide Run;
    var half := Run(k, s, Probing(k));
    ProbingRuns(k, s);
    RunTwo(k, half, Call, End(true, Failure));
    RunAppend(k, s, Probing(k), [Call, End(true, Failure)]);
    var t := Run(k, half, [Call, End(true, Failure)]);
    RunTwo(k, t, End(true, Success), Call);
    ProbingRuns(k, t);
  }

  ghost predicate AlwaysExact<M>(k: Kind<M>, clock: int, mayVanish: bool) {
    forall actions :: mayVanish || NoProbeVanishes(actions) ==> Exact(Run(k, Start(k, clock), actions))
  }

  /** The in-flight counter is exact in every interleaving precisely when one probe is allowed and no probe vanishes. */
  lemma ExactIff<M>(k: Kind<M>, clock: int, trip: seq<Action>, mayVanish: bool)
    requires Sane(k) && Tripped(k, clock, trip)
    ensures AlwaysExact(k, clock, mayVanish) <==> k.gate.maxHalfOpen == 1 && !mayVanish
  {
    hide Step, Run;
    if mayVanish {
      var actions := VanishedProbesStick(k, clock, trip);
      assert !Exact(Run(k, Start(k, clock), trip + actions));
    } else if k.gate.maxHalfOpen == 1 {
      forall actions | NoProbeVanishes(actions)
        ensures Exact(Run(k, Start(k, clock), actions))
      {
        OneProbeAtATime(k, clock, actions);
      }
    } else {
      var reopen := Probing(k) + [Call, End(true, Failure)];
      ProbesCross(k, Run(k, Start(k, clock), trip));
      RunAppend(k, Start(k, clock), trip, reopen);
      RunAppend(k, Start(k, clock), trip + reopen, Probing(k));
      var actions := trip + reopen + Probing(k);
      assert NoProbeVanishes(actions) && !Exact(Run(k, Start(k, clock), actions));
    }
  }

  /** Once open, nothing is admitted until more than resetTimeout later. */
  ghost predicate HoldsAfterTrip<M>(k: Kind<M>, clock: int, before: seq<Action>, after: seq<Action>) {
    var s := Run(k, Start(k, clock), before);
    var t := Run(k, s, after);
    s.gate.mode.Open? && t.clock - s.gate.openedAt <= k.gate.resetTimeout ==> t.gate == s.gate && t.calls <= s.calls
  }

  ghost predicate AlwaysHolds<M>(k: Kind<M>, clock: int) {
    forall before, after :: HoldsAfterTrip(k, clock, before, after)
  }

  /** A trip keeps calls out for resetTimeout in every interleaving precisely when one probe is allowed. */
  lemma TripHoldsIff<M>(k: Kind<M>, clock: int, trip: seq<Action>)
    requires Sane(k) && Tripped(k, clock, trip)
    ensures AlwaysHolds(k, clock) <==> k.gate.maxHalfOpen == 1
  {
    hide Step, Run;
    if k.gate.maxHalfOpen == 1 {
      forall before, after
        ensures HoldsAfterTrip(k, clock, before, after)
      {
        var s := Run(k, Start(k, clock), before);
        OneProbeAtATime(k, clock, before);
        if s.gate.mode.Open? && Run(k, s, after).clock - s.gate.openedAt <= k.gate.resetTimeout {
          TripHolds(k, s, after);
        }
      }
    } else {
      var reopen := Probing(k) + [Call, End(true, Failure)];
      ProbesCross(k, Run(k, Start(k, clock), trip));
      RunAppend(k, Start(k, clock), trip, reopen);
      assert !HoldsAfterTrip(k, clock, trip + reopen, [End(true, Success), Call]);
    }
  }
}
