/** The PostgreSQL rate limiter: one upsert per request, from any replica, with clocks that need not agree. */
module PgLimiter {
  import opened Common

  datatype Row = Row(count: int, start: int)

  /** `window` is the configured duration, in nanoseconds. */
  datatype Config = Config(limit: int, window: int)

  const SECOND := 1_000_000_000
  const MILLISECOND := 1_000_000

  predicate Sane(cfg: Config) {
    0 < cfg.limit && 0 < cfg.window
  }

  /** Whole seconds, or whole milliseconds for a window below one second. */
  function Interval(cfg: Config): int {
    if cfg.window < SECOND then cfg.window / MILLISECOND * MILLISECOND else cfg.window / SECOND * SECOND
  }

  predicate Expires(cfg: Config, r: Row, now: int) {
    now - r.start >= Interval(cfg)
  }

  /**
   INSERT ... ON CONFLICT DO UPDATE ... WHERE ... RETURNING: the row afterwards, and the returned flag if a row came
   back.
   */
  function Upsert(cfg: Config, row: Option<Row>, n: int, now: int): (Row, Option<bool>) {
    match row
    case None => (Row(n, now), Some(true))
    case Some(r) =>
      var expired := Expires(cfg, r, now);
      if expired || r.count + n <= cfg.limit then
        var t := Row(if expired then n else r.count + n, if expired then now else r.start);
        (t, Some(t.start == now || t.count <= cfg.limit))
      else (r, None)
  }

  predicate Acceptable(cfg: Config, n: int) {
    0 < n <= cfg.limit
  }

  function Remaining(cfg: Config, row: Option<Row>, now: int): int {
    match row
    case None => cfg.limit
    case Some(r) =>
      if now - r.start >= cfg.window then cfg.limit
      else if cfg.limit - r.count < 0 then 0
      else cfg.limit - r.count
  }

  /** How a statement ends: applied, refused, or applied with the reply lost on the way back. */
  datatype Fate = Done | Refused | ReplyLost

  /** A request: its size, the clock sample of the replica that sends it, and how its statement ends. */
  datatype Request = Request(n: int, now: int, fate: Fate)

  /** The row, what has been granted in all and since the last reset, and every window start there has been. */
  datatype State = State(row: Option<Row>, granted: int, sinceReset: int, starts: seq<int>)

  const FRESH := State(None, 0, 0, [])

  function Step(cfg: Config, s: State, q: Request): State {
    if !Acceptable(cfg, q.n) || q.fate.Refused? then s
    else
      var (r, flag) := Upsert(cfg, s.row, q.n, q.now);
      var amount := if flag == Some(true) && q.fate.Done? then q.n else 0;
      if s.row == None || Expires(cfg, s.row.value, q.now) then
        State(Some(r), s.granted + amount, amount, s.starts + [r.start])
      else State(Some(r), s.granted + amount, s.sinceReset + amount, s.starts)
  }

  function Run(cfg: Config, s: State, requests: seq<Request>): State
    decreases |requests|
  {
    if requests == [] then s else Run(cfg, Step(cfg, s, requests[0]), requests[1..])
  }

  /** Successive window starts are at least an interval apart. */
  ghost predicate Spaced(starts: seq<int>, interval: int) {
    forall i :: 0 <= i < |starts| - 1 ==> starts[i] + interval <= starts[i + 1]
  }

  ghost predicate Inv(cfg: Config, s: State) {
    && Spaced(s.starts, Interval(cfg))
    && (s.row == None ==> s == FRESH)
    && (s.row.Some? ==>
          && s.starts != [] && s.starts[|s.starts| - 1] == s.row.value.start
          && 0 <= s.sinceReset <= s.row.value.count <= cfg.limit
          && s.granted - s.sinceReset <= cfg.limit * (|s.starts| - 1))
  }

  /** The flag that comes back is always true: whether a request is granted is decided by the WHERE clause alone. */
  lemma FlagIsTrue(cfg: Config, row: Option<Row>, n: int, now: int)
    ensures Upsert(cfg, row, n, now).1 != Some(false)
  {
  }

  lemma StepInv(cfg: Config, s: State, q: Request)
    requires Sane(cfg) && Inv(cfg, s)
    ensures Inv(cfg, Step(cfg, s, q))
  {
    if Acceptable(cfg, q.n) && s.row.Some? {
      var k := |s.starts| - 1;
      assert cfg.limit * (k + 1) == cfg.limit * k + cfg.limit;
    }
  }

  lemma {:induction false} RunInv(cfg: Config, s: State, requests: seq<Request>)
    requires Sane(cfg) && Inv(cfg, s)
    ensures Inv(cfg, Run(cfg, s, requests))
    decreases |requests|
  {
    hide Inv, Step;
    if requests != [] {
      StepInv(cfg, s, requests[0]);
      RunInv(cfg, Step(cfg, s, requests[0]), requests[1..]);
    }
  }

  lemma {:induction false} SpacedSpan(starts: seq<int>, interval: int)
    requires Spaced(starts, interval) && starts != []
    ensures interval * (|starts| - 1) <= starts[|starts| - 1] - starts[0]
    decreases |starts|
  {
    var k := |starts| - 1;
    if k > 0 {
      SpacedSpan(starts[..k], interval);
      assert interval * k == interval * (k - 1) + interval;
    }
  }

  /**
   In every interleaving, with timestamps in any order: starts are spaced, no window exceeds the limit, and the total
   is bounded by the span of the starts.
   */
  lemma RateIsBounded(cfg: Config, requests: seq<Request>)
    requires Sane(cfg)
    ensures var s := Run(cfg, FRESH, requests);
            && Spaced(s.starts, Interval(cfg))
            && (s.row.Some? ==> s.sinceReset <= s.row.value.count <= cfg.limit)
            && s.granted <= cfg.limit * |s.starts|
            && (s.starts != [] ==>
                  Interval(cfg) * (s.granted - cfg.limit) <= cfg.limit * (s.starts[|s.starts| - 1] - s.starts[0]))
  {
    hide Interval, Step;
    RunInv(cfg, FRESH, requests);
    var s := Run(cfg, FRESH, requests);
    if s.starts != [] {
      var k, d := |s.starts| - 1, Interval(cfg);
      SpacedSpan(s.starts, d);
      IntervalNotNegative(cfg);
      SpanBoundsTotal(d, cfg.limit, k, s.granted, s.starts[k] - s.starts[0]);
    }
  }

  lemma SpanBoundsTotal(d: int, limit: int, k: int, granted: int, span: int)
    requires 0 <= d && 0 < limit && granted - limit <= limit * k && d * k <= span
    ensures d * (granted - limit) <= limit * span && granted <= limit * (k + 1)
  {
    Scale(d, granted - limit, limit * k);
    Scale(limit, d * k, span);
    assert d * (limit * k) == limit * (d * k);
    assert limit * (k + 1) == limit * k + limit;
  }

  lemma IntervalNotNegative(cfg: Config)
    requires Sane(cfg)
    ensures 0 <= Interval(cfg) <= cfg.window
  {
  }

  lemma Scale(d: int, x: int, y: int)
    requires 0 <= d && x <= y
    ensures d * x <= d * y
  {
  }

  // ----- what the configured window comes to -----

  /** The unit in which the window is sent. */
  function Unit(cfg: Config): int {
    if cfg.window < SECOND then MILLISECOND else SECOND
  }

  /** `w` is the configured window, cut down to whole units. */
  predicate WholeUnits(cfg: Config, w: int) {
    w % Unit(cfg) == 0 && w <= cfg.window < w + Unit(cfg)
  }

  lemma IntervalIsWhole(cfg: Config, w: int)
    requires Sane(cfg)
    ensures WholeUnits(cfg, w) <==> Interval(cfg) == w
  {
    var u := Unit(cfg);
    CutDown(cfg.window, u);
    if WholeUnits(cfg, w) {
      OneMultiple(w, Interval(cfg), cfg.window, u);
    }
  }

  lemma CutDown(x: int, u: int)
    requires (u == MILLISECOND || u == SECOND) && 0 <= x
    ensures (x / u * u) % u == 0 && x / u * u <= x < x / u * u + u
  {
    if u == SECOND {
      CutToSeconds(x);
    } else {
      CutToMilliseconds(x);
    }
  }

  lemma CutToSeconds(x: int)
    ensures (x / SECOND * SECOND) % SECOND == 0 && x / SECOND * SECOND <= x < x / SECOND * SECOND + SECOND
  {
  }

  lemma CutToMilliseconds(x: int)
    ensures (x / MILLISECOND * MILLISECOND) % MILLISECOND == 0
    ensures x / MILLISECOND * MILLISECOND <= x < x / MILLISECOND * MILLISECOND + MILLISECOND
  {
  }

  lemma OneMultiple(a: int, b: int, x: int, u: int)
    requires (u == MILLISECOND || u == SECOND) && a % u == 0 && b % u == 0 && a <= x < a + u && b <= x < b + u
    ensures a == b
  {
    if u == SECOND {
      assert a % SECOND == 0 && b % SECOND == 0;
    } else {
      assert a % MILLISECOND == 0 && b % MILLISECOND == 0;
    }
  }

  /** The whole statement, for a row that is there: the window it goes by is the configured one in whole units. */
  lemma StatementDecides(cfg: Config, r: Row, n: int, now: int, w: int)
    requires Sane(cfg) && WholeUnits(cfg, w)
    ensures Upsert(cfg, Some(r), n, now) ==
            if now >= r.start + w then (Row(n, now), Some(true))
            else if r.count + n <= cfg.limit then (Row(r.count + n, r.start), Some(true))
            else (r, None)
  {
    hide Interval, WholeUnits;
    IntervalIsWhole(cfg, w);
    FlagIsTrue(cfg, Some(r), n, now);
  }

  /** A request that does not fit is refused until less than one unit before the configured window is over. */
  lemma RefusedWithinWindow(cfg: Config, r: Row, n: int, now: int)
    requires Sane(cfg) && r.count + n > cfg.limit
    requires now <= r.start + cfg.window - Unit(cfg) || (cfg.window % Unit(cfg) == 0 && now < r.start + cfg.window)
    ensures Upsert(cfg, Some(r), n, now) == (r, None)
  {
    hide Upsert;
    var w := cfg.window / Unit(cfg) * Unit(cfg);
    CutDown(cfg.window, Unit(cfg));
    assert cfg.window % Unit(cfg) == 0 ==> w == cfg.window;
    StatementDecides(cfg, r, n, now, w);
  }

  /** In every interleaving successive windows start almost the configured window apart, and no less if it is whole. */
  lemma StartsApart(cfg: Config, requests: seq<Request>, i: nat)
    requires Sane(cfg) && i + 1 < |Run(cfg, FRESH, requests).starts|
    ensures var starts := Run(cfg, FRESH, requests).starts;
            && starts[i + 1] - starts[i] > cfg.window - Unit(cfg)
            && (cfg.window % Unit(cfg) == 0 ==> starts[i + 1] - starts[i] >= cfg.window)
  {
    hide Run, Step, Interval;
    RunInv(cfg, FRESH, requests);
    var w := cfg.window / Unit(cfg) * Unit(cfg);
    CutDown(cfg.window, Unit(cfg));
    IntervalIsWhole(cfg, w);
  }

  // ----- windows too short for the statement -----

  lemma IntervalVanishes(cfg: Config)
    requires Sane(cfg)
    ensures Interval(cfg) == 0 <==> cfg.window < MILLISECOND
  {
  }

  ghost predicate AllAt(requests: seq<Request>, now: int) {
    forall i :: 0 <= i < |requests| ==> requests[i].now == now
  }

  /** What of the row's count still stands at `now`. */
  ghost function Standing(cfg: Config, s: State, now: int): int {
    if s.row.Some? && !Expires(cfg, s.row.value, now) then s.row.value.count else 0
  }

  /** At one instant a row is reset at most once, so the limit holds for the instant. */
  lemma {:induction false} InstantRun(cfg: Config, s: State, requests: seq<Request>, now: int)
    requires Sane(cfg) && Inv(cfg, s) && 0 < Interval(cfg) && AllAt(requests, now)
    ensures Run(cfg, s, requests).granted - s.granted + Standing(cfg, s, now) <= cfg.limit
    decreases |requests|
  {
    hide Interval;
    if requests != [] {
      var t := Step(cfg, s, requests[0]);
      StepInv(cfg, s, requests[0]);
      InstantRun(cfg, t, requests[1..], now);
    }
  }

  /** With an interval of nothing every request starts its own window. */
  lemma {:induction false} Flood(cfg: Config, s: State, now: int, k: nat) returns (requests: seq<Request>)
    requires Sane(cfg) && Interval(cfg) == 0 && (s.row.Some? ==> s.row.value.start <= now)
    ensures AllAt(requests, now) && Run(cfg, s, requests).granted == s.granted + cfg.limit * k
    decreases k
  {
    requests := [];
    if k > 0 {
      var q := Request(cfg.limit, now, Done);
      var rest := Flood(cfg, Step(cfg, s, q), now, k - 1);
      requests := [q] + rest;
      assert requests[1..] == rest;
      assert cfg.limit * k == cfg.limit * (k - 1) + cfg.limit;
    }
  }

  /** Whatever has happened before, requests of one instant are granted at most `bound` in all. */
  ghost predicate BoundedAtInstants(cfg: Config, bound: int) {
    forall before, requests, now ::
      AllAt(requests, now) ==> GrantedAt(cfg, before, requests) <= bound
  }

  ghost function GrantedAt(cfg: Config, before: seq<Request>, requests: seq<Request>): int {
    var s := Run(cfg, FRESH, before);
    Run(cfg, s, requests).granted - s.granted
  }

  /** What is granted at an instant is bounded, and then by the limit, exactly for windows of a millisecond or more. */
  lemma InstantBoundIff(cfg: Config)
    requires Sane(cfg)
    ensures (exists bound :: BoundedAtInstants(cfg, bound)) <==> cfg.window >= MILLISECOND
    ensures cfg.window >= MILLISECOND ==> BoundedAtInstants(cfg, cfg.limit)
  {
    hide Interval, Step, Run;
    IntervalVanishes(cfg);
    IntervalNotNegative(cfg);
    if cfg.window >= MILLISECOND {
      forall before, requests, now | AllAt(requests, now)
        ensures GrantedAt(cfg, before, requests) <= cfg.limit
      {
        RunInv(cfg, FRESH, before);
        var s := Run(cfg, FRESH, before);
        InstantRun(cfg, s, requests, now);
        StandingNotNegative(cfg, s, now);
      }
      assert BoundedAtInstants(cfg, cfg.limit);
    } else {
      forall bound
        ensures !BoundedAtInstants(cfg, bound)
      {
        var k: nat := if bound < 0 then 0 else bound + 1;
        FreshRun(cfg);
        var requests := Flood(cfg, FRESH, 0, k);
        Scale(k, 1, cfg.limit);
        assert GrantedAt(cfg, [], requests) > bound;
      }
    }
  }

  lemma StandingNotNegative(cfg: Config, s: State, now: int)
    requires Inv(cfg, s)
    ensures 0 <= Standing(cfg, s, now)
  {
  }

  lemma FreshRun(cfg: Config)
    ensures Run(cfg, FRESH, []) == FRESH
  {
  }

  ghost predicate Consistent(cfg: Config, r: Row, n: int, now: int) {
    Upsert(cfg, Some(r), n, now).1.Some? <==> n <= Remaining(cfg, Some(r), now)
  }

  ghost predicate RemainingIsHonest(cfg: Config) {
    forall r: Row, n, now :: 0 < r.count <= cfg.limit && Acceptable(cfg, n) ==> Consistent(cfg, r, n, now)
  }

  /**
   Remaining promises exactly what the next request gets, precisely when the window survives the conversion to an
   interval.
   */
  lemma HonestIffWholeUnits(cfg: Config)
    requires Sane(cfg)
    ensures RemainingIsHonest(cfg) <==> Interval(cfg) == cfg.window
  {
    IntervalNotNegative(cfg);
    if Interval(cfg) < cfg.window {
      var r, now := Row(1, 0), Interval(cfg);
      assert Acceptable(cfg, cfg.limit);
      assert !Consistent(cfg, r, cfg.limit, now);
    }
  }

  lemma RemainingInRange(cfg: Config, row: Option<Row>, now: int)
    requires Sane(cfg) && (row.Some? ==> 0 <= row.value.count)
    ensures 0 <= Remaining(cfg, row, now) <= cfg.limit
  {
  }

  /** What Remaining promises is never refused, whatever the window. */
  lemma PromiseIsKept(cfg: Config, row: Option<Row>, n: int, now: int)
    requires Sane(cfg) && Acceptable(cfg, n) && n <= Remaining(cfg, row, now)
    ensures Upsert(cfg, row, n, now).1 == Some(true)
  {
    IntervalNotNegative(cfg);
  }

  /** The limiter over its table. */
  class Limiter {
    const cfg: Config
    var table: map<string, Row>

    ghost function At(key: string): Option<Row>
      reads this
    {
      if key in table then Some(table[key]) else None
    }

    constructor (limit: int, window: int)
      ensures Sane(cfg) && table == map[]
      ensures cfg == Config(if limit <= 0 then 1 else limit, if window <= 0 then 60 * SECOND else window)
    {
      cfg := Config(if limit <= 0 then 1 else limit, if window <= 0 then 60 * SECOND else window);
      table := map[];
    }

    method AllowN(key: string, n: int, now: int, fate: Fate) returns (allowed: bool)
      modifies this
      ensures key == "" || !Acceptable(cfg, n) || fate.Refused? ==> !allowed && table == old(table)
      ensures key != "" && Acceptable(cfg, n) && !fate.Refused? ==>
                var (r, flag) := Upsert(cfg, old(At(key)), n, now);
                table == old(table)[key := r] && (allowed <==> flag == Some(true) && fate.Done?)
      ensures (Sane(cfg) && key in old(table) && old(table)[key].count + n > cfg.limit
               && now <= old(table)[key].start + cfg.window - Unit(cfg)) ==> !allowed && table == old(table)
    {
      if key == "" || n <= 0 {
        return false;
      }
      if n > cfg.limit {
        return false;
      }
      if fate.Refused? {
        return false;
      }
      if Sane(cfg) && key in table && table[key].count + n > cfg.limit
         && now <= table[key].start + cfg.window - Unit(cfg) {
        RefusedWithinWindow(cfg, table[key], n, now);
      }
      var row := if key in table then Some(table[key]) else None;
      var (r, flag) := Upsert(cfg, row, n, now);
      table := table[key := r];
      match flag {
        case None => return false;
        case Some(b) => return b && fate.Done?;
      }
    }

    method RemainingFor(key: string, now: int, fails: bool) returns (n: int)
      ensures n == if key == "" || fails then 0 else Remaining(cfg, At(key), now)
    {
      if key == "" || fails {
        return 0;
      }
      if key !in table {
        return cfg.limit;
      }
      var r := table[key];
      if now - r.start >= cfg.window {
        return cfg.limit;
      }
      n := cfg.limit - r.count;
      if n < 0 {
        return 0;
      }
    }

    method Reset(key: string, fails: bool)
      modifies this
      ensures table == if key == "" || fails then old(table) else old(table) - {key}
    {
      if key != "" && !fails {
        table := table - {key};
      }
    }
  }
}
