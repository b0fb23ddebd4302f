/** The error-rate circuit breaker: an incrementally pruned window against recomputation from the history. */
module RatioBreaker {
  import opened BreakerGate

  /** The window as the breaker keeps it: recent records, and how many of them failed. */
  datatype Tally = Tally(records: seq<Record>, failureCount: int)

  datatype Settings = Settings(failureRatio: real, minRequests: int, window: int, gate: Config)

  predicate Proper(cfg: Settings) {
    && 0.0 < cfg.failureRatio <= 1.0 && 0 < cfg.minRequests && 0 < cfg.window
    && 0 < cfg.gate.resetTimeout && 0 < cfg.gate.maxHalfOpen
  }

  function Failures(records: seq<Record>): nat {
    if records == [] then 0 else (if records[0].failed then 1 else 0) + Failures(records[1..])
  }

  /** How many leading records are older than the cutoff. */
  function Stale(records: seq<Record>, cutoff: int): (n: nat)
    ensures n <= |records|
  {
    if records == [] || records[0].ts >= cutoff then 0 else 1 + Stale(records[1..], cutoff)
  }

  predicate OverLimit(cfg: Settings, total: nat, failures: int) {
    total >= cfg.minRequests && total > 0 && failures as real / total as real >= cfg.failureRatio
  }

  /** Pruning from the front, with the running count corrected, and the verdict on what is left. */
  function Evaluate(cfg: Settings, t: Tally, now: int): (Tally, bool) {
    var n := Stale(t.records, now - cfg.window);
    var u := Tally(t.records[n..], t.failureCount - Failures(t.records[..n]));
    (u, OverLimit(cfg, |u.records|, u.failureCount))
  }

  function Note(t: Tally, now: int, failed: bool): Tally {
    Tally(t.records + [Record(now, failed)], t.failureCount + if failed then 1 else 0)
  }

  // ----- the naive window -----

  ghost function InWindow(history: seq<Record>, cutoff: int): seq<Record> {
    if history == [] then []
    else if history[0].ts >= cutoff then [history[0]] + InWindow(history[1..], cutoff)
    else InWindow(history[1..], cutoff)
  }

  ghost predicate Ordered(history: seq<Record>, now: int) {
    && (forall i, j :: 0 <= i < j < |history| ==> history[i].ts <= history[j].ts)
    && (forall i :: 0 <= i < |history| ==> history[i].ts <= now)
  }

  /**
   The kept records are the end of the history, what was dropped is out of the window for good, and the count is right.
   */
  ghost predicate Tracks(cfg: Settings, t: Tally, history: seq<Record>, now: int) {
    var cut := |history| - |t.records|;
    && Ordered(history, now)
    && 0 <= cut && t.records == history[cut..]
    && (forall i :: 0 <= i < cut ==> history[i].ts < now - cfg.window)
    && t.failureCount == Failures(t.records)
  }

  lemma {:induction false} FailuresSplit(a: seq<Record>, b: seq<Record>)
    ensures Failures(a + b) == Failures(a) + Failures(b)
  {
    if a == [] {
      assert a + b == b;
    } else {
      assert (a + b)[1..] == a[1..] + b;
      FailuresSplit(a[1..], b);
    }
  }

  lemma {:induction false} StaleSkips(history: seq<Record>, cut: nat, cutoff: int)
    requires cut <= |history| && forall i :: 0 <= i < cut ==> history[i].ts < cutoff
    ensures Stale(history, cutoff) == cut + Stale(history[cut..], cutoff)
  {
    if cut == 0 {
      assert history[0..] == history;
    } else {
      StaleSkips(history[1..], cut - 1, cutoff);
      assert history[1..][cut - 1..] == history[cut..];
    }
  }

  lemma {:induction false} AllInWindow(history: seq<Record>, cutoff: int)
    requires forall i :: 0 <= i < |history| ==> history[i].ts >= cutoff
    ensures InWindow(history, cutoff) == history
  {
    if history != [] {
      AllInWindow(history[1..], cutoff);
    }
  }

  /** In an ordered history the window is what follows the stale records. */
  lemma {:induction false} WindowIsSuffix(history: seq<Record>, cutoff: int, now: int)
    requires Ordered(history, now)
    ensures InWindow(history, cutoff) == history[Stale(history, cutoff)..]
    ensures forall i :: 0 <= i < Stale(history, cutoff) ==> history[i].ts < cutoff
  {
    if history != [] && history[0].ts < cutoff {
      WindowIsSuffix(history[1..], cutoff, now);
      assert forall i :: 0 < i < |history| ==> history[i] == history[1..][i - 1];
    } else {
      AllInWindow(history, cutoff);
    }
  }

  /** The stale records of the tally are those of the history that it has not dropped yet. */
  lemma StaleOfTally(cfg: Settings, t: Tally, history: seq<Record>, now: int)
    requires Tracks(cfg, t, history, now)
    ensures |t.records| <= |history|
    ensures Stale(history, now - cfg.window) == |history| - |t.records| + Stale(t.records, now - cfg.window)
  {
    hide Failures, Stale, Ordered;
    var cut := |history| - |t.records|;
    assert history[cut..] == t.records;
    StaleSkips(history, cut, now - cfg.window);
  }

  lemma SliceOfSlice(history: seq<Record>, cut: nat, n: nat)
    requires cut + n <= |history|
    ensures history[cut..][n..] == history[cut + n..]
  {
  }

  /** What pruning keeps is the window of the whole history. */
  lemma PruneIsWindow(cfg: Settings, t: Tally, history: seq<Record>, now: int)
    requires Tracks(cfg, t, history, now)
    ensures var cutoff, cut := now - cfg.window, |history| - |t.records|;
            var n := Stale(t.records, cutoff);
            0 <= cut && t.records[n..] == history[cut + n..] == InWindow(history, cutoff)
  {
    hide Failures, InWindow, Stale, Ordered, Tracks;
    var cutoff := now - cfg.window;
    StaleOfTally(cfg, t, history, now);
    TallyIsSuffix(cfg, t, history, now);
    SliceOfSlice(history, |history| - |t.records|, Stale(t.records, cutoff));
    WindowIsSlice(history, cutoff, now);
  }

  lemma WindowIsSlice(history: seq<Record>, cutoff: int, now: int)
    requires Ordered(history, now)
    ensures InWindow(history, cutoff) == history[Stale(history, cutoff)..]
  {
    hide InWindow, Stale, Ordered;
    WindowIsSuffix(history, cutoff, now);
  }

  /** What it has dropped by then is older than the window. */
  lemma DroppedIsStale(cfg: Settings, t: Tally, history: seq<Record>, now: int, i: nat)
    requires Tracks(cfg, t, history, now)
    requires i < |history| - |t.records| + Stale(t.records, now - cfg.window)
    ensures i < |history| && history[i].ts < now - cfg.window
  {
    hide Failures, InWindow, Stale, Ordered, Tracks;
    StaleOfTally(cfg, t, history, now);
    TallyIsSuffix(cfg, t, history, now);
    WindowIsSuffix(history, now - cfg.window, now);
  }

  lemma TallyIsSuffix(cfg: Settings, t: Tally, history: seq<Record>, now: int)
    requires Tracks(cfg, t, history, now)
    ensures Ordered(history, now) && |t.records| <= |history| && t.records == history[|history| - |t.records|..]
  {
  }

  /** What evaluation keeps is exactly the window of the whole history, its count is exact, and so is its verdict. */
  lemma EvaluateIsExact(cfg: Settings, t: Tally, history: seq<Record>, now: int)
    requires Tracks(cfg, t, history, now)
    ensures var (u, trips) := Evaluate(cfg, t, now);
            var w := InWindow(history, now - cfg.window);
            && u.records == w && u.failureCount == Failures(w)
            && (trips <==> OverLimit(cfg, |w|, Failures(w)))
            && Tracks(cfg, u, history, now)
  {
    hide Failures, InWindow, Stale, OverLimit, Ordered;
    var n := Stale(t.records, now - cfg.window);
    PruneIsWindow(cfg, t, history, now);
    forall i: nat | i < |history| - |t.records| + n
      ensures i < |history| && history[i].ts < now - cfg.window
    {
      DroppedIsStale(cfg, t, history, now, i);
    }
    assert t.records[..n] + t.records[n..] == t.records;
    FailuresSplit(t.records[..n], t.records[n..]);
  }

  lemma NoteTracks(cfg: Settings, t: Tally, history: seq<Record>, now: int, failed: bool)
    requires Tracks(cfg, t, history, now)
    ensures Tracks(cfg, Note(t, now, failed), history + [Record(now, failed)], now)
  {
    var r := Record(now, failed);
    FailuresSplit(t.records, [r]);
    assert Failures([r]) == if failed then 1 else 0;
    assert (history + [r])[|history| - |t.records|..] == t.records + [r];
  }

  // ----- the breaker under interleaving -----

  /** The tally after noting an outcome now, and whether it trips the gate. */
  function Judge(cfg: Settings, t: Tally, outcome: Outcome, now: int): (Tally, bool) {
    Evaluate(cfg, Note(t, now, !outcome.Success?), now)
  }

  function Ratio(cfg: Settings): Kind<Tally> {
    Kind(cfg.gate, Tally([], 0), (t, outcome, now) => Judge(cfg, t, outcome, now))
  }

  ghost predicate Inv(cfg: Settings, s: System<Tally>, history: seq<Record>) {
    Tracks(cfg, s.memory, history, s.clock)
  }

  /** The indices of the history's entries that are not older than `cutoff`, and of the failed ones among them. */
  ghost function Recent(history: seq<Record>, cutoff: int): set<int> {
    set i | 0 <= i < |history| && history[i].ts >= cutoff
  }

  ghost function RecentFailed(history: seq<Record>, cutoff: int): set<int> {
    set i | 0 <= i < |history| && history[i].ts >= cutoff && history[i].failed
  }

  /** Enough recent outcomes, and at least the given share of them failed. */
  ghost predicate TooManyFailed(cfg: Settings, history: seq<Record>, now: int) {
    var cutoff := now - cfg.window;
    && |Recent(history, cutoff)| >= cfg.minRequests && |Recent(history, cutoff)| > 0
    && |RecentFailed(history, cutoff)| as real >= cfg.failureRatio * |Recent(history, cutoff)| as real
  }

  lemma {:induction false} InWindowLast(history: seq<Record>, r: Record, cutoff: int)
    ensures InWindow(history + [r], cutoff) == InWindow(history, cutoff) + if r.ts >= cutoff then [r] else []
  {
    if history == [] {
      assert history + [r] == [r] && [r][1..] == [];
    } else {
      assert (history + [r])[1..] == history[1..] + [r];
      InWindowLast(history[1..], r, cutoff);
    }
  }

  lemma RecentLast(history: seq<Record>, r: Record, cutoff: int)
    ensures |Recent(history + [r], cutoff)| == |Recent(history, cutoff)| + if r.ts >= cutoff then 1 else 0
  {
    var n := |history|;
    assert n !in Recent(history, cutoff);
    assert Recent(history + [r], cutoff) == Recent(history, cutoff) + if r.ts >= cutoff then {n} else {};
  }

  lemma RecentFailedLast(history: seq<Record>, r: Record, cutoff: int)
    ensures |RecentFailed(history + [r], cutoff)| ==
            |RecentFailed(history, cutoff)| + if r.ts >= cutoff && r.failed then 1 else 0
  {
    var n, more := |history|, if r.ts >= cutoff && r.failed then {|history|} else {};
    assert n !in RecentFailed(history, cutoff);
    assert RecentFailed(history + [r], cutoff) == RecentFailed(history, cutoff) + more;
  }

  /** The window has as many entries, and as many failures, as there are such indices. */
  lemma {:induction false} WindowIsCounted(history: seq<Record>, cutoff: int)
    ensures |InWindow(history, cutoff)| == |Recent(history, cutoff)|
    ensures Failures(InWindow(history, cutoff)) == |RecentFailed(history, cutoff)|
  {
    hide InWindow, Failures, Recent, RecentFailed;
    if history == [] {
      EmptyWindow(cutoff);
    } else {
      var n := |history| - 1;
      var h, r := history[..n], history[n];
      assert history == h + [r];
      WindowIsCounted(h, cutoff);
      InWindowLast(h, r, cutoff);
      FailuresSplit(InWindow(h, cutoff), if r.ts >= cutoff then [r] else []);
      FailuresOfOne(r);
      RecentLast(h, r, cutoff);
      RecentFailedLast(h, r, cutoff);
    }
  }

  lemma EmptyWindow(cutoff: int)
    ensures InWindow([], cutoff) == [] && Failures([]) == 0
    ensures Recent([], cutoff) == {} && RecentFailed([], cutoff) == {}
  {
  }

  lemma FailuresOfOne(r: Record)
    ensures Failures([r]) == (if r.failed then 1 else 0) && Failures([]) == 0
  {
    assert [r][1..] == [];
  }

  lemma ShareIsRatio(cfg: Settings, total: nat, failures: nat)
    ensures OverLimit(cfg, total, failures) <==>
            total >= cfg.minRequests && total > 0 && failures as real >= cfg.failureRatio * total as real
  {
    if total > 0 {
      Divide(failures as real, total as real, cfg.failureRatio);
    }
  }

  lemma Divide(a: real, b: real, c: real)
    requires b > 0.0
    ensures a / b >= c <==> a >= c * b
  {
    var q := a / b;
    assert q * b == a;
    if q >= c {
      assert (q - c) * b >= 0.0;
    } else {
      assert (c - q) * b > 0.0;
    }
  }

  /**
   An outcome recorded while closed leaves exactly the window of the history, and opens the gate exactly when too many
   of its recent entries failed.
   */
  lemma OutcomeIsExact(cfg: Settings, s: System<Tally>, history: seq<Record>, outcome: Outcome)
    requires Inv(cfg, s, history) && s.calls > 0 && Counts(s, outcome)
    ensures var t := Step(Ratio(cfg), s, End(false, outcome));
            var h := history + [Record(s.clock, !outcome.Success?)];
            var w := InWindow(h, s.clock - cfg.window);
            && t.memory.records == w && t.memory.failureCount == |RecentFailed(h, s.clock - cfg.window)|
            && (t.gate.mode.Open? <==> TooManyFailed(cfg, h, s.clock))
            && Inv(cfg, t, h)
  {
    hide Tracks, InWindow, Failures, OverLimit, Evaluate, Note, Recent, RecentFailed;
    var now, failed := s.clock, !outcome.Success?;
    var h := history + [Record(now, failed)];
    var w := InWindow(h, now - cfg.window);
    NoteTracks(cfg, s.memory, history, now, failed);
    EvaluateIsExact(cfg, Note(s.memory, now, failed), h, now);
    WindowIsCounted(h, now - cfg.window);
    ShareIsRatio(cfg, |w|, Failures(w));
  }

  lemma StepInv(cfg: Settings, s: System<Tally>, history: seq<Record>, a: Action)
    requires Inv(cfg, s, history)
    ensures Inv(cfg, Step(Ratio(cfg), s, a), Recorded(s, a, history))
  {
    hide Evaluate, Failures;
    NoFailures();
    if a.End? && !a.isProbe && s.calls > 0 && Counts(s, a.outcome) {
      OutcomeIsExact(cfg, s, history, a.outcome);
    }
  }

  lemma NoFailures()
    ensures Failures([]) == 0
  {
  }

  lemma {:induction false} RunInv(cfg: Settings, s: System<Tally>, history: seq<Record>, actions: seq<Action>)
    requires Inv(cfg, s, history)
    ensures Inv(cfg, Run(Ratio(cfg), s, actions), History(Ratio(cfg), s, actions, history))
    decreases |actions|
  {
    hide Inv, Step, Recorded;
    if actions != [] {
      StepInv(cfg, s, history, actions[0]);
      RunInv(cfg, Step(Ratio(cfg), s, actions[0]), Recorded(s, actions[0], history), actions[1..]);
    }
  }

  /**
   For any number of probes and any interleaving: the pruned window and its running count are what the whole history
   of the run gives, and a recorded outcome opens the breaker exactly when too many of the recent entries failed.
   */
  lemma WindowRefinesHistory(cfg: Settings, clock: int, actions: seq<Action>, outcome: Outcome)
    ensures var k := Ratio(cfg);
            var s, h := Run(k, Start(k, clock), actions), Past(k, clock, actions);
            s.calls > 0 && Counts(s, outcome) ==>
              var t, g := Step(k, s, End(false, outcome)), h + [Record(s.clock, !outcome.Success?)];
              && t.memory.records == InWindow(g, s.clock - cfg.window)
              && t.memory.failureCount == |RecentFailed(g, s.clock - cfg.window)|
              && (t.gate.mode.Open? <==> TooManyFailed(cfg, g, s.clock))
  {
    hide Step, InWindow, Run, History, Recent, RecentFailed;
    var k := Ratio(cfg);
    NoFailures();
    RunInv(cfg, Start(k, clock), [], actions);
    var s := Run(k, Start(k, clock), actions);
    if s.calls > 0 && Counts(s, outcome) {
      OutcomeIsExact(cfg, s, Past(k, clock, actions), outcome);
    }
  }

  // ----- why the probe limit matters -----

  /** Nothing in flight, closed, and every record so far a failure of this instant. */
  ghost predicate AllFailing(s: System<Tally>) {
    && s.gate.mode.Closed? && s.calls == 0 && s.probes == 0
    && s.memory.failureCount == |s.memory.records|
    && (s.memory.records != [] ==> s.memory.records[0].ts == s.clock)
  }

  lemma FailOnce(cfg: Settings, s: System<Tally>)
    requires Proper(cfg) && AllFailing(s) && |s.memory.records| < cfg.minRequests
    ensures var t := Step(Ratio(cfg), Step(Ratio(cfg), s, Call), End(false, Failure));
            && t.clock == s.clock && t.calls == 0 && t.probes == 0
            && |t.memory.records| == |s.memory.records| + 1
            && (|t.memory.records| < cfg.minRequests ==> AllFailing(t))
            && (|t.memory.records| == cfg.minRequests ==> t.gate.mode.Open? && t.gate.openedAt == t.clock)
  {
    hide Judge, Evaluate, OverLimit;
    JudgeFailing(cfg, s.memory, s.clock);
  }

  lemma JudgeFailing(cfg: Settings, t: Tally, now: int)
    requires Proper(cfg) && t.failureCount == |t.records| < cfg.minRequests
    requires t.records != [] ==> t.records[0].ts == now
    ensures Judge(cfg, t, Failure, now) == (Note(t, now, true), |t.records| + 1 == cfg.minRequests)
  {
    hide OverLimit;
    var n := Note(t, now, true);
    assert n.records[0].ts == now;
    assert Stale(n.records, now - cfg.window) == 0;
    assert n.records[..0] == [] && n.records[0..] == n.records;
    AllFailedIsOverLimit(cfg, |n.records|);
  }

  lemma AllFailedIsOverLimit(cfg: Settings, n: nat)
    requires Proper(cfg) && 0 < n
    ensures OverLimit(cfg, n, n) <==> n >= cfg.minRequests
  {
    var k := n as real;
    assert k / k == 1.0;
  }

  /** Enough failures in a row open any breaker. */
  lemma {:induction false} TripRun(cfg: Settings, s: System<Tally>) returns (actions: seq<Action>)
    requires Proper(cfg) && AllFailing(s) && |s.memory.records| < cfg.minRequests
    ensures var t := Run(Ratio(cfg), s, actions);
            t.gate.mode.Open? && t.probes == 0 && t.gate.openedAt == t.clock && NoProbeVanishes(actions)
    decreases cfg.minRequests - |s.memory.records|
  {
    hide Step, AllFailing;
    var k, two := Ratio(cfg), [Call, End(false, Failure)];
    var t := Step(k, Step(k, s, Call), End(false, Failure));
    FailOnce(cfg, s);
    RunTwo(k, s, Call, End(false, Failure));
    actions := two;
    if |t.memory.records| < cfg.minRequests {
      var rest := TripRun(cfg, t);
      RunAppend(k, s, two, rest);
      actions := two + rest;
    }
  }

  /** The in-flight counter is exact in every interleaving precisely when one probe is allowed and no probe vanishes. */
  lemma ExactIffOneProbe(cfg: Settings, clock: int, mayVanish: bool)
    requires Proper(cfg)
    ensures AlwaysExact(Ratio(cfg), clock, mayVanish) <==> cfg.gate.maxHalfOpen == 1 && !mayVanish
  {
    hide Run, AlwaysExact;
    var trip := TripRun(cfg, Start(Ratio(cfg), clock));
    ExactIff(Ratio(cfg), clock, trip, mayVanish);
  }

  /** A trip keeps calls out for resetTimeout in every interleaving precisely when one probe is allowed. */
  lemma TripHoldsIffOneProbe(cfg: Settings, clock: int)
    requires Proper(cfg)
    ensures AlwaysHolds(Ratio(cfg), clock) <==> cfg.gate.maxHalfOpen == 1
  {
    hide Run, AlwaysHolds;
    var trip := TripRun(cfg, Start(Ratio(cfg), clock));
    TripHoldsIff(Ratio(cfg), clock, trip);
  }

  /** However many probes are allowed, some run leaves the breaker half-open for good. */
  lemma CanGetStuck(cfg: Settings, clock: int) returns (actions: seq<Action>)
    requires Proper(cfg)
    ensures Stuck(Ratio(cfg), Run(Ratio(cfg), Start(Ratio(cfg), clock), actions))
  {
    hide Run;
    var trip := TripRun(cfg, Start(Ratio(cfg), clock));
    var rest := VanishedProbesStick(Ratio(cfg), clock, trip);
    actions := trip + rest;
  }

  // ----- the breaker object -----

  /** The end of a call as the breaker's own fields see it. */
  function Finish(cfg: Settings, g: Gate, t: Tally, isProbe: bool, outcome: Outcome, now: int): (Gate, Tally) {
    if isProbe then (ProbeEnds(g, outcome, now), if outcome.Success? then Tally([], 0) else t)
    else if !g.mode.Closed? || outcome.Cancelled? || outcome.Vanished? then (g, t)
    else
      var (u, trips) := Judge(cfg, t, outcome, now);
      (if trips then Trip(g, now) else g, u)
  }

  /** The steps of the interleaved model change the fields as the object's methods do. */
  lemma FinishIsStep(cfg: Settings, s: System<Tally>, isProbe: bool, outcome: Outcome)
    requires if isProbe then s.probes > 0 else s.calls > 0
    ensures var t := Step(Ratio(cfg), s, End(isProbe, outcome));
            (t.gate, t.memory) == Finish(cfg, s.gate, s.memory, isProbe, outcome, s.clock)
  {
    hide Judge;
  }

  lemma PruneStarts(records: seq<Record>, cutoff: int)
    ensures records[0..] == records && Failures(records[..0]) == 0
  {
  }

  lemma PruneAdvances(records: seq<Record>, cutoff: int, i: nat)
    requires i < |records| && records[i].ts < cutoff
    ensures Stale(records[i..], cutoff) == 1 + Stale(records[i + 1..], cutoff)
    ensures Failures(records[..i + 1]) == Failures(records[..i]) + if records[i].failed then 1 else 0
  {
    assert records[i..][1..] == records[i + 1..];
    assert records[..i + 1] == records[..i] + [records[i]];
    FailuresSplit(records[..i], [records[i]]);
    assert Failures([records[i]]) == (if records[i].failed then 1 else 0) + Failures([]);
  }

  lemma PruneStops(records: seq<Record>, cutoff: int, i: nat)
    requires i <= |records| && (i < |records| ==> records[i].ts >= cutoff)
    ensures Stale(records[i..], cutoff) == 0
  {
  }

  class Breaker {
    const cfg: Settings
    var state: Mode
    var openedAt: int
    var halfOpenInFlight: int
    var records: seq<Record>
    var failureCount: int

    ghost function GateView(): Gate
      reads this
    {
      Gate(state, openedAt, halfOpenInFlight)
    }

    ghost function TallyView(): Tally
      reads this
    {
      Tally(records, failureCount)
    }

    constructor (failureRatio: real, minRequests: int, window: int, resetTimeout: int, maxHalfOpen: int)
      ensures Proper(cfg)
      ensures cfg.failureRatio == (if 0.0 < failureRatio <= 1.0 then failureRatio else 0.5)
      ensures cfg.minRequests == (if minRequests > 0 then minRequests else 10)
      ensures cfg.window == (if window > 0 then window else 10_000_000_000)
      ensures cfg.gate.resetTimeout == (if resetTimeout > 0 then resetTimeout else 30_000_000_000)
      ensures cfg.gate.maxHalfOpen == (if maxHalfOpen > 0 then maxHalfOpen else 1)
      ensures GateView() == Gate(Closed, 0, 0) && TallyView() == Tally([], 0)
    {
      cfg := Settings(
        if failureRatio <= 0.0 || failureRatio > 1.0 then 0.5 else failureRatio,
        if minRequests <= 0 then 10 else minRequests,
        if window <= 0 then 10_000_000_000 else window,
        Config(if resetTimeout <= 0 then 30_000_000_000 else resetTimeout,
            if maxHalfOpen <= 0 then 1 else maxHalfOpen));
      state, openedAt, halfOpenInFlight, records, failureCount := Closed, 0, 0, [], 0;
    }

    method CanExecuteNow(now: int) returns (admission: Admission)
      modifies this
      ensures (GateView(), admission) == CanExecute(cfg.gate, old(GateView()), now)
      ensures TallyView() == old(TallyView())
    {
      match state {
        case Closed => return AsCall;
        case Open =>
          if now - openedAt > cfg.gate.resetTimeout {
            state, halfOpenInFlight := HalfOpen, 1;
            return AsProbe;
          }
          return Refused;
        case HalfOpen =>
          if halfOpenInFlight < cfg.gate.maxHalfOpen {
            halfOpenInFlight := halfOpenInFlight + 1;
            return AsProbe;
          }
          return Refused;
      }
    }

    /** The loop of evaluateRatio and the copy after it. */
    method Prune(cutoff: int)
      modifies this`records, this`failureCount
      ensures var n := Stale(old(records), cutoff);
              records == old(records)[n..] && failureCount == old(failureCount) - Failures(old(records)[..n])
    {
      hide Failures, Stale;
      var validIdx := 0;
      PruneStarts(records, cutoff);
      while validIdx < |records| && records[validIdx].ts < cutoff
        invariant 0 <= validIdx <= |records| && records == old(records)
        invariant Stale(records, cutoff) == validIdx + Stale(records[validIdx..], cutoff)
        invariant failureCount == old(failureCount) - Failures(records[..validIdx])
      {
        PruneAdvances(records, cutoff, validIdx);
        if records[validIdx].failed {
          failureCount := failureCount - 1;
        }
        validIdx := validIdx + 1;
      }
      PruneStops(records, cutoff, validIdx);
      records := records[validIdx..];
    }

    method EvaluateRatio(now: int)
      modifies this
      ensures TallyView() == Evaluate(cfg, old(TallyView()), now).0
      ensures GateView() ==
              if Evaluate(cfg, old(TallyView()), now).1 then Trip(old(GateView()), now) else old(GateView())
    {
      hide Failures, Stale;
      Prune(now - cfg.window);
      var total := |records|;
      if total >= cfg.minRequests && total > 0 {
        var ratio := failureCount as real / total as real;
        if ratio >= cfg.failureRatio {
          openedAt, state := now, Open;
        }
      }
    }

    method DecrementInFlight()
      modifies this`halfOpenInFlight
      ensures GateView() == DecrementHalfOpen(old(GateView()))
    {
      halfOpenInFlight := halfOpenInFlight - 1;
      if halfOpenInFlight < 0 {
        halfOpenInFlight := 0;
      }
    }

    method RecordResult(isProbe: bool, outcome: Outcome, now: int)
      requires !outcome.Panic? && !outcome.Vanished?
      modifies this
      ensures (GateView(), TallyView()) == Finish(cfg, old(GateView()), old(TallyView()), isProbe, outcome, now)
    {
      hide Evaluate;
      if isProbe {
        DecrementInFlight();
        if outcome.Cancelled? {
          return;
        }
        if outcome.Failure? {
          openedAt, state := now, Open;
          return;
        }
        records, failureCount, state := [], 0, Closed;
        return;
      }
      if state == Closed {
        if outcome.Cancelled? {
          return;
        }
        var failed := outcome.Failure?;
        records := records + [Record(now, failed)];
        if failed {
          failureCount := failureCount + 1;
        }
        EvaluateRatio(now);
      }
    }

    method OnPanic(isProbe: bool, now: int)
      modifies this
      ensures (GateView(), TallyView()) == Finish(cfg, old(GateView()), old(TallyView()), isProbe, Panic, now)
    {
      hide Evaluate;
      if isProbe {
        DecrementInFlight();
        openedAt, state := now, Open;
      } else if state == Closed {
        records := records + [Record(now, true)];
        failureCount := failureCount + 1;
        EvaluateRatio(now);
      }
    }
  }
}
