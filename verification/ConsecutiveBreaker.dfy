/** The consecutive-failure circuit breaker: a counter against the run of failures it stands for. */
module ConsecutiveBreaker {
  import opened BreakerGate

  datatype Settings = Settings(maxFailures: int, gate: Config)

  predicate Proper(cfg: Settings) {
    0 < cfg.maxFailures && 0 < cfg.gate.resetTimeout && 0 < cfg.gate.maxHalfOpen
  }

  /** The counter after an outcome that counts, and whether it trips the gate. */
  function Judge(cfg: Settings, failures: int, outcome: Outcome): (int, bool) {
    if outcome.Success? then (0, false) else (failures + 1, failures + 1 >= cfg.maxFailures)
  }

  /** The number of failures at the end of the history. */
  ghost function Trailing(history: seq<Record>): nat {
    if history == [] || !history[|history| - 1].failed then 0 else 1 + Trailing(history[..|history| - 1])
  }

  // ----- the breaker under interleaving -----

  function Consecutive(cfg: Settings): Kind<int> {
    Kind(cfg.gate, 0, (failures, outcome, now) => Judge(cfg, failures, outcome))
  }

  /** The counter is the length of the trailing run, and a closed gate means the run is still too short. */
  ghost predicate Inv(cfg: Settings, s: System<int>, history: seq<Record>) {
    s.memory == Trailing(history) && (s.gate.mode.Closed? ==> s.memory < cfg.maxFailures)
  }

  lemma TrailingNext(history: seq<Record>, r: Record)
    ensures Trailing(history + [r]) == if r.failed then Trailing(history) + 1 else 0
  {
    assert (history + [r])[..|history|] == history;
  }

  lemma StepInv(cfg: Settings, s: System<int>, history: seq<Record>, a: Action)
    requires Proper(cfg) && Inv(cfg, s, history)
    ensures Inv(cfg, Step(Consecutive(cfg), s, a), Recorded(s, a, history))
  {
    hide Trailing;
    NoTrail();
    if a.End? {
      TrailingNext(history, Record(s.clock, !a.outcome.Success?));
    }
  }

  lemma NoTrail()
    ensures Trailing([]) == 0
  {
  }

  lemma {:induction false} RunInv(cfg: Settings, s: System<int>, history: seq<Record>, actions: seq<Action>)
    requires Proper(cfg) && Inv(cfg, s, history)
    ensures Inv(cfg, Run(Consecutive(cfg), s, actions), History(Consecutive(cfg), s, actions, history))
    decreases |actions|
  {
    hide Inv, Step, Recorded;
    if actions != [] {
      StepInv(cfg, s, history, actions[0]);
      RunInv(cfg, Step(Consecutive(cfg), s, actions[0]), Recorded(s, actions[0], history), actions[1..]);
    }
  }

  /**
   In every reachable state the counter is the trailing run of the run's own history; closed, an outcome trips exactly
   when it completes a run of maxFailures.
   */
  lemma TripsOnCompletedRun(cfg: Settings, clock: int, actions: seq<Action>, outcome: Outcome)
    requires Proper(cfg)
    ensures var k := Consecutive(cfg);
            var s, h := Run(k, Start(k, clock), actions), Past(k, clock, actions);
            && s.memory == Trailing(h)
            && (s.gate.mode.Closed? ==> s.memory < cfg.maxFailures)
            && (s.calls > 0 && Counts(s, outcome) ==>
                  (Step(k, s, End(false, outcome)).gate.mode.Open? <==>
                   Trailing(h + [Record(s.clock, !outcome.Success?)]) == cfg.maxFailures))
  {
    hide Run, Trailing, History;
    var k := Consecutive(cfg);
    NoTrail();
    RunInv(cfg, Start(k, clock), [], actions);
    var s := Run(k, Start(k, clock), actions);
    TrailingNext(Past(k, clock, actions), Record(s.clock, !outcome.Success?));
  }

  // ----- why the probe limit matters -----

  /** Enough failures in a row open any breaker. */
  lemma {:induction false} TripRun(cfg: Settings, s: System<int>) returns (actions: seq<Action>)
    requires Proper(cfg) && s.gate.mode.Closed? && s.calls == 0 && s.probes == 0 && s.memory < cfg.maxFailures
    ensures var t := Run(Consecutive(cfg), s, actions);
            t.gate.mode.Open? && t.probes == 0 && t.gate.openedAt == t.clock && NoProbeVanishes(actions)
    decreases cfg.maxFailures - s.memory
  {
    var k, two := Consecutive(cfg), [Call, End(false, Failure)];
    var t := Step(k, Step(k, s, Call), End(false, Failure));
    RunTwo(k, s, Call, End(false, Failure));
    actions := two;
    if t.gate.mode.Closed? {
      var rest := TripRun(cfg, t);
      RunAppend(k, s, two, rest);
      actions := two + rest;
    }
  }

  /** The in-flight counter is exact in every interleaving precisely when one probe is allowed and no probe vanishes. */
  lemma ExactIffOneProbe(cfg: Settings, clock: int, mayVanish: bool)
    requires Proper(cfg)
    ensures AlwaysExact(Consecutive(cfg), clock, mayVanish) <==> cfg.gate.maxHalfOpen == 1 && !mayVanish
  {
    hide Run, AlwaysExact;
    var trip := TripRun(cfg, Start(Consecutive(cfg), clock));
    ExactIff(Consecutive(cfg), clock, trip, mayVanish);
  }

  /** A trip keeps calls out for resetTimeout in every interleaving precisely when one probe is allowed. */
  lemma TripHoldsIffOneProbe(cfg: Settings, clock: int)
    requires Proper(cfg)
    ensures AlwaysHolds(Consecutive(cfg), clock) <==> cfg.gate.maxHalfOpen == 1
  {
    hide Run, AlwaysHolds;
    var trip := TripRun(cfg, Start(Consecutive(cfg), clock));
    TripHoldsIff(Consecutive(cfg), clock, trip);
  }

  /** However many probes are allowed, some run leaves the breaker half-open for good. */
  lemma CanGetStuck(cfg: Settings, clock: int) returns (actions: seq<Action>)
    requires Proper(cfg)
    ensures Stuck(Consecutive(cfg), Run(Consecutive(cfg), Start(Consecutive(cfg), clock), actions))
  {
    hide Run;
    var trip := TripRun(cfg, Start(Consecutive(cfg), clock));
    var rest := VanishedProbesStick(Consecutive(cfg), clock, trip);
    actions := trip + rest;
  }

  // ----- the breaker object -----

  /** The end of a call as the breaker's own fields see it. */
  function Finish(cfg: Settings, g: Gate, failures: int, isProbe: bool, outcome: Outcome, now: int): (Gate, int) {
    if isProbe then (ProbeEnds(g, outcome, now), if outcome.Success? then 0 else failures)
    else if !g.mode.Closed? || outcome.Cancelled? || outcome.Vanished? then (g, failures)
    else
      var (n, trips) := Judge(cfg, failures, outcome);
      (if trips then Trip(g, now) else g, n)
  }

  lemma FinishIsStep(cfg: Settings, s: System<int>, isProbe: bool, outcome: Outcome)
    requires if isProbe then s.probes > 0 else s.calls > 0
    ensures var t := Step(Consecutive(cfg), s, End(isProbe, outcome));
            (t.gate, t.memory) == Finish(cfg, s.gate, s.memory, isProbe, outcome, s.clock)
  {
    hide Judge;
  }

  class Breaker {
    var maxFailures: int
    var resetTimeout: int
    var maxHalfOpen: int
    var state: Mode
    var openedAt: int
    var halfOpenInFlight: int
    var failures: int

    ghost function GateView(): Gate
      reads this
    {
      Gate(state, openedAt, halfOpenInFlight)
    }

    ghost function SettingsView(): Settings
      reads this
    {
      Settings(maxFailures, Config(resetTimeout, maxHalfOpen))
    }

    constructor (maxFailures: int, resetTimeout: int, maxHalfOpen: int)
      ensures SettingsView() == Settings(maxFailures, Config(resetTimeout, if maxHalfOpen <= 0 then 1 else maxHalfOpen))
      ensures GateView() == Gate(Closed, 0, 0) && failures == 0
    {
      this.maxFailures, this.resetTimeout := maxFailures, resetTimeout;
      this.maxHalfOpen := if maxHalfOpen <= 0 then 1 else maxHalfOpen;
      state, openedAt, halfOpenInFlight, failures := Closed, 0, 0, 0;
    }

    method InitDefaults()
      modifies this`maxFailures, this`resetTimeout, this`maxHalfOpen
      ensures Proper(SettingsView()) && (Proper(old(SettingsView())) ==> SettingsView() == old(SettingsView()))
      ensures maxFailures == (if old(maxFailures) > 0 then old(maxFailures) else 5)
      ensures resetTimeout == (if old(resetTimeout) > 0 then old(resetTimeout) else 60_000_000_000)
      ensures maxHalfOpen == (if old(maxHalfOpen) > 0 then old(maxHalfOpen) else 1)
    {
      if maxFailures <= 0 {
        maxFailures := 5;
      }
      if resetTimeout <= 0 {
        resetTimeout := 60_000_000_000;
      }
      if maxHalfOpen <= 0 {
        maxHalfOpen := 1;
      }
    }

    /** Every admission settles the configuration first, so no result is ever recorded against an unset one. */
    method CanExecuteNow(now: int) returns (admission: Admission)
      modifies this
      ensures Proper(SettingsView()) && (Proper(old(SettingsView())) ==> SettingsView() == old(SettingsView()))
      ensures (GateView(), admission) == CanExecute(SettingsView().gate, old(GateView()), now)
      ensures failures == old(failures)
    {
      InitDefaults();
      match state {
        case Closed => return AsCall;
        case Open =>
          if now - openedAt > resetTimeout {
            state, halfOpenInFlight := HalfOpen, 1;
            return AsProbe;
          }
          return Refused;
        case HalfOpen =>
          if halfOpenInFlight < maxHalfOpen {
            halfOpenInFlight := halfOpenInFlight + 1;
            return AsProbe;
          }
          return Refused;
      }
    }

    method DecrementInFlight()
      modifies this`halfOpenInFlight
      ensures GateView() == DecrementHalfOpen(old(GateView()))
    {
      halfOpenInFlight := halfOpenInFlight - 1;
      if halfOpenInFlight < 0 {
        halfOpenInFlight := 0;
      }
    }

    method RecordResult(isProbe: bool, outcome: Outcome, now: int)
      requires !outcome.Panic? && !outcome.Vanished?
      modifies this
      ensures SettingsView() == old(SettingsView())
      ensures (GateView(), failures) ==
              Finish(SettingsView(), old(GateView()), old(failures), isProbe, outcome, now)
    {
      if isProbe {
        DecrementInFlight();
        if outcome.Cancelled? {
          return;
        }
        if outcome.Failure? {
          openedAt, state := now, Open;
          return;
        }
        failures, state := 0, Closed;
        return;
      }
      if state == Closed {
        if outcome.Cancelled? {
          return;
        }
        if outcome.Failure? {
          failures := failures + 1;
          if failures >= maxFailures {
            openedAt, state := now, Open;
          }
          return;
        }
        failures := 0;
      }
    }

    method OnPanic(isProbe: bool, now: int)
      modifies this
      ensures SettingsView() == old(SettingsView())
      ensures (GateView(), failures) ==
              Finish(SettingsView(), old(GateView()), old(failures), isProbe, Panic, now)
    {
      if isProbe {
        DecrementInFlight();
        openedAt, state := now, Open;
      } else if state == Closed {
        failures := failures + 1;
        if failures >= maxFailures {
          openedAt, state := now, Open;
        }
      }
    }
  }
}
