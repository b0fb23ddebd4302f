/** The sliding-window limiter over many keys and callers, and when collecting idle keys can be noticed. */
module SlidingLimiter {
  import opened SlidingWindow
  import opened Registry
  import opened RegistrySimulation
  import Runs = RegistryRuns
  import Bounds = RegistryBounds
  import Budgets = RegistryBudget

  function ServeOp(cfg: Config, e: Entry, op: Op, now: int): (Entry, Answer)
  {
    match op
    case Allow(n) => var (f, ok) := AllowN(cfg, e, n, now); (f, Granted(ok))
    case Read => (Advance(cfg, e, now), Left(Remaining(cfg, e, now)))
  }

  function Windows(cfg: Config): Policy<Entry>
  {
    Policy(t => Blank(cfg, t), (e, op, t) => ServeOp(cfg, e, op, t),
           (e: Entry, t) => e.index * cfg.window < t - cfg.idleTimeout, cfg.gcInterval)
  }

  /** A collected entry's last window is over, and what is left of its weight is less than one event. */
  predicate TimeoutSuffices(cfg: Config) {
    cfg.window <= cfg.idleTimeout + 1 && cfg.limit * (2 * cfg.window - cfg.idleTimeout - 1) < cfg.window
  }

  // ----- why a collection may go unnoticed -----

  /** The previous window weighs less than one event. */
  ghost predicate Faint(cfg: Config, e: Entry, now: int)
  {
    e.prev * Ahead(cfg, now) < cfg.window
  }

  /** Entries that no sequence of calls can tell apart. */
  ghost predicate Alike(cfg: Config, a: Entry, b: Entry, now: int)
  {
    && Ok(cfg, a, now) && Ok(cfg, b, now)
    && a.index == b.index == now / cfg.window && a.curr == b.curr
    && (a.prev == b.prev || (Faint(cfg, a, now) && Faint(cfg, b, now)))
  }

  lemma AlikeUsed(cfg: Config, a: Entry, b: Entry, now: int)
    requires Alike(cfg, a, b, now)
    ensures Used(cfg, a, now) == Used(cfg, b, now)
  {
    hide Used;
    if a.prev != b.prev {
      UsedBounds(cfg, a, now);
      UsedBounds(cfg, b, now);
    } else {
      assert a == b;
    }
  }

  /** Advancing an entry that is already at `now` does nothing. */
  lemma AdvanceHere(cfg: Config, a: Entry, now: int)
    requires a.index == now / cfg.window
    ensures Advance(cfg, a, now) == a
  {
  }

  lemma AlikeLater(cfg: Config, a: Entry, b: Entry, now: int, later: int)
    requires Alike(cfg, a, b, now) && now <= later
    ensures Alike(cfg, Advance(cfg, a, later), Advance(cfg, b, later), later)
  {
    AdvanceOk(cfg, a, now, later);
    AdvanceOk(cfg, b, now, later);
    if later / cfg.window == now / cfg.window && a.prev != b.prev {
      var w := cfg.window;
      DivBounds(now, w);
      DivBounds(later, w);
      MulMonotone(a.prev, Ahead(cfg, later), Ahead(cfg, now));
      MulMonotone(b.prev, Ahead(cfg, later), Ahead(cfg, now));
    }
  }

  lemma ShareBound(curr: int, ahead: int, limit: int, most: int, w: int)
    requires 0 <= curr <= limit && 0 <= ahead <= most && limit * most < w
    ensures curr * ahead < w
  {
    MulMonotone(curr, ahead, most);
    MulMonotone(most, curr, limit);
  }

  /** A window that started at least `gap` before `now`, a whole window or more, is over. */
  lemma WindowOver(index: int, w: int, now: int, gap: int)
    requires 0 < w <= gap && w * index + gap <= now
    ensures index < now / w
    ensures now / w == index + 1 ==> w - now % w <= 2 * w - gap
  {
    DivBounds(now, w);
    MulCancel(w, index, now / w);
    assert w * (index + 1) == w * index + w;
  }

  /** What a collected entry would have been at `now`: nothing current, and at most a faint previous window. */
  lemma CollectedIsFaint(cfg: Config, e: Entry, now: int)
    requires TimeoutSuffices(cfg) && Ok(cfg, e, now) && e.index * cfg.window < now - cfg.idleTimeout
    ensures Advance(cfg, e, now).curr == 0 && Faint(cfg, Advance(cfg, e, now), now)
  {
    var w, gap := cfg.window, cfg.idleTimeout + 1;
    WindowOver(e.index, w, now, gap);
    if now / w == e.index + 1 {
      ShareBound(e.curr, Ahead(cfg, now), cfg.limit, 2 * w - gap, w);
    }
  }

  lemma AllowAlike(cfg: Config, x: Entry, y: Entry, n: int, now: int)
    requires Alike(cfg, Advance(cfg, x, now), Advance(cfg, y, now), now) && 0 < n
    ensures AllowN(cfg, x, n, now).1 == AllowN(cfg, y, n, now).1
    ensures Alike(cfg, AllowN(cfg, x, n, now).0, AllowN(cfg, y, n, now).0, now)
    ensures Remaining(cfg, x, now) == Remaining(cfg, y, now)
  {
    hide Advance, Ahead, Used;
    var a, b := Advance(cfg, x, now), Advance(cfg, y, now);
    AlikeUsed(cfg, a, b, now);
    UsedBounds(cfg, a, now);
  }

  /** Entries that are alike once they are advanced. */
  ghost predicate AdvanceAlike(cfg: Config, a: Entry, b: Entry, now: int)
  {
    Ok(cfg, a, now) && Ok(cfg, b, now) && Alike(cfg, Advance(cfg, a, now), Advance(cfg, b, now), now)
  }

  ghost function Weightless(cfg: Config): Likeness<Entry>
  {
    Likeness((a, b, t) => AdvanceAlike(cfg, a, b, t), (a, b, t) => AdvanceAlike(cfg, a, b, t),
             (b, t) => AdvanceAlike(cfg, Blank(cfg, t), b, t))
  }

  lemma Serves(cfg: Config, a: Entry, b: Entry, op: Op, now: int)
    ensures ServesAlike(Windows(cfg), Weightless(cfg), false, a, b, op, now)
  {
    hide Advance, AllowN, Alike, Remaining, Ok;
    if AdvanceAlike(cfg, a, b, now) && Proper(op) {
      AllowAlike(cfg, a, b, if op.Allow? then op.n else 1, now);
      if op.Allow? {
        SettledAlike(cfg, AllowN(cfg, a, op.n, now).0, AllowN(cfg, b, op.n, now).0, now);
      } else {
        SettledAlike(cfg, Advance(cfg, a, now), Advance(cfg, b, now), now);
      }
    }
  }

  lemma SettledAlike(cfg: Config, a: Entry, b: Entry, now: int)
    requires Alike(cfg, a, b, now)
    ensures AdvanceAlike(cfg, a, b, now)
  {
    AdvanceHere(cfg, a, now);
    AdvanceHere(cfg, b, now);
  }

  lemma StaysAlike(cfg: Config, a: Entry, b: Entry, now: int, later: int)
    requires AdvanceAlike(cfg, a, b, now) && now <= later
    ensures AdvanceAlike(cfg, a, b, later)
  {
    hide Alike, Advance;
    AlikeLater(cfg, Advance(cfg, a, now), Advance(cfg, b, now), now, later);
    AdvanceTwice(cfg, a, now, now, later);
    AdvanceTwice(cfg, b, now, now, later);
    DivMonotone(now, later, cfg.window);
  }

  lemma StaysBlank(cfg: Config, b: Entry, now: int, later: int)
    requires AdvanceAlike(cfg, Blank(cfg, now), b, now) && now <= later
    ensures AdvanceAlike(cfg, Blank(cfg, later), b, later)
  {
    hide Alike;
    StaysAlike(cfg, Blank(cfg, now), b, now, later);
    DivMonotone(now, later, cfg.window);
    assert Advance(cfg, Blank(cfg, now), later) == Blank(cfg, later) == Advance(cfg, Blank(cfg, later), later);
  }

  lemma CollectedIsBlank(cfg: Config, a: Entry, b: Entry, now: int)
    requires TimeoutSuffices(cfg) && AdvanceAlike(cfg, a, b, now)
    requires a.index * cfg.window < now - cfg.idleTimeout
    ensures AdvanceAlike(cfg, Blank(cfg, now), b, now)
  {
    hide Advance, Ahead;
    CollectedIsFaint(cfg, a, now);
    AdvanceHere(cfg, Blank(cfg, now), now);
  }

  lemma WeightlessIsLawful(cfg: Config)
    requires TimeoutSuffices(cfg)
    ensures Lawful(Windows(cfg), Weightless(cfg), false)
  {
    hide ServesAlike, AdvanceAlike, TimeoutSuffices;
    var p, r := Windows(cfg), Weightless(cfg);
    forall a, b, op, now
      ensures ServesAlike(p, r, false, a, b, op, now)
    {
      Serves(cfg, a, b, op, now);
    }
    forall a, b, now, later
      ensures Lasts(r, false, a, b, now, later)
    {
      if AdvanceAlike(cfg, a, b, now) && now <= later {
        StaysAlike(cfg, a, b, now, later);
      }
      if AdvanceAlike(cfg, Blank(cfg, now), b, now) && now <= later {
        StaysBlank(cfg, b, now, later);
      }
    }
    forall a, b, now
      ensures Forgets(p, r, a, b, now)
    {
      if AdvanceAlike(cfg, a, b, now) && p.idle(a, now) {
        CollectedIsBlank(cfg, a, b, now);
      }
      BlankAlike(cfg, now);
    }
  }

  lemma BlankAlike(cfg: Config, now: int)
    ensures AdvanceAlike(cfg, Blank(cfg, now), Blank(cfg, now), now)
  {
  }

  // ----- the exact condition -----

  lemma BlankAllows(cfg: Config, n: int, now: int)
    requires 0 < n
    ensures AllowN(cfg, Blank(cfg, now), n, now) ==
            (Entry(now / cfg.window, if n <= cfg.limit then n else 0, 0), n <= cfg.limit)
  {
    UsedBounds(cfg, Blank(cfg, now), now);
  }

  /** When the timeout is too short, the entry filled at time 0 still counts for at least one event at `t`. */
  lemma StillWeighs(cfg: Config, t: int)
    requires !TimeoutSuffices(cfg) && t == cfg.idleTimeout + 1
    ensures 1 <= Used(cfg, Advance(cfg, Entry(0, cfg.limit, 0), t), t)
  {
    var w, a := cfg.window, Advance(cfg, Entry(0, cfg.limit, 0), t);
    UsedBounds(cfg, a, t);
    if t < w {
      DivUnique(t, w, 0);
    } else {
      var most := 2 * w - t;
      if most <= 0 {
        MulMonotone(cfg.limit, most, 0);
      }
      DivUnique(t, w, 1);
      DivBounds(t, w);
    }
  }

  /** How long to wait before the first call, so that an entry is collected one unit after its timeout. */
  function Wait(cfg: Config): nat {
    if cfg.gcInterval > cfg.idleTimeout + 1 then cfg.gcInterval - cfg.idleTimeout - 1 else 0
  }

  lemma SpentIsFull(cfg: Config, t: int)
    ensures Runs.Spent(Windows(cfg), t, cfg.limit) == Entry(t / cfg.window, cfg.limit, 0)
    ensures Windows(cfg).serve(Blank(cfg, t), Allow(cfg.limit), t) ==
            (Entry(t / cfg.window, cfg.limit, 0), Granted(true))
  {
    BlankAllows(cfg, cfg.limit, t);
  }

  /** A key filled up at time 0 and asked for again when it has just become collectable. */
  lemma EarlyCollectionShows(cfg: Config, sch: Schedule)
    requires !TimeoutSuffices(cfg)
    ensures !Unnoticed(Windows(cfg), sch)
  {
    hide UnnoticedFrom, Used, TimeoutSuffices, AllowN;
    var t := cfg.idleTimeout + 1;
    SpentIsFull(cfg, 0);
    SpentIsFull(cfg, t);
    assert 0 / cfg.window == 0;
    StillWeighs(cfg, t);
    WeighsRefused(cfg, t);
    var start: int := 0 - Wait(cfg);
    Runs.EarlyShows(Windows(cfg), sch, start, Wait(cfg), t, cfg.limit);
  }

  lemma WeighsRefused(cfg: Config, t: int)
    requires 1 <= Used(cfg, Advance(cfg, Entry(0, cfg.limit, 0), t), t)
    ensures !AllowN(cfg, Entry(0, cfg.limit, 0), cfg.limit, t).1
  {
    hide Used, Advance;
  }

  /**
   On runs in which no call straddles a collection of its entry, and however calls overlap: collection goes unnoticed
   exactly when what it forgets weighs less than one event.
   */
  lemma UnnoticedIff(cfg: Config, sch: Schedule)
    ensures Unnoticed(Windows(cfg), sch) <==> TimeoutSuffices(cfg)
  {
    hide UnnoticedFrom;
    if TimeoutSuffices(cfg) {
      WeightlessIsLawful(cfg);
      forall start
        ensures UnnoticedFrom(Windows(cfg), sch, start)
      {
        LawfulIsUnnoticed(Windows(cfg), Weightless(cfg), false, sch, start);
      }
    } else {
      EarlyCollectionShows(cfg, sch);
    }
  }

  /** In particular a timeout of two windows is enough. */
  lemma TwoWindowsSuffice(cfg: Config, sch: Schedule)
    requires 2 * cfg.window <= cfg.idleTimeout
    ensures Unnoticed(Windows(cfg), sch)
  {
    MulMonotone(cfg.limit, 2 * cfg.window - cfg.idleTimeout - 1, 0);
    UnnoticedIff(cfg, sch);
  }

  // ----- calls that straddle a collection -----

  /** Long enough for an entry to lose all weight and to be collected. */
  function LongGap(cfg: Config): nat
  {
    2 * cfg.window + cfg.idleTimeout + 1 + cfg.gcInterval
  }

  lemma RestedEntry(cfg: Config, t: int)
    ensures var e, now := Entry(t / cfg.window, cfg.limit, 0), t + LongGap(cfg);
            && Windows(cfg).serve(e, Allow(cfg.limit), now) == (Entry(now / cfg.window, cfg.limit, 0), Granted(true))
            && Windows(cfg).serve(Entry(now / cfg.window, cfg.limit, 0), Allow(cfg.limit), now).1 == Granted(false)
            && e.index * cfg.window < now - cfg.idleTimeout
  {
    var w, now := cfg.window, t + LongGap(cfg);
    DivBounds(t, w);
    DivUnique(t + 2 * w, w, t / w + 2);
    DivMonotone(t + 2 * w, now, w);
    assert Advance(cfg, Entry(t / w, cfg.limit, 0), now) == Blank(cfg, now);
    BlankAllows(cfg, cfg.limit, now);
    UsedBounds(cfg, Entry(now / w, cfg.limit, 0), now);
  }

  /**
   Whatever the configuration: a caller that holds an entry across its collection makes the limiter grant twice the
   limit at one instant. That collection is the only step that is not disciplined.
   */
  lemma OrphanedEntry(cfg: Config, start: int) returns (before: seq<Action<nat>>, after: seq<Action<nat>>, i: nat)
    ensures var p := Windows(cfg);
            var s := Run(p, true, Start<nat, Entry>(start), before);
            && DisciplinedRun(p, ANY, Start<nat, Entry>(start), before)
            && s == Run(p, false, Start<nat, Entry>(start), before)
            && OneLapse(p, s, after, i) && after[i].Make? && FittingRun(p, false, s, after)
            && Run(p, true, s, after).clock == s.clock
            && Runs.Total(p, true, s, after, "a") == 2 * cfg.limit
            && Runs.Total(p, false, s, after, "a") == cfg.limit
  {
    hide Run, Runs.Total, ServeOp, DisciplinedRun, OneLapse, FittingRun;
    var p, gap := Windows(cfg), LongGap(cfg);
    before, after, i := Runs.Opening(0, gap, cfg.limit), Runs.OrphanRun(cfg.limit), 2;
    Runs.OpeningRuns(p, true, ANY, start, 0, gap, cfg.limit);
    Runs.OpeningRuns(p, false, ANY, start, 0, gap, cfg.limit);
    SpentIsFull(cfg, start);
    SpentIsFull(cfg, start + gap);
    RestedEntry(cfg, start);
    Runs.OrphanShows(p, Entry(start / cfg.window, cfg.limit, 0), start, start + gap, cfg.limit);
  }

  /**
   So does the non-collecting limiter where the collecting one does not, when a Reset falls between a failed look-up
   and the making of the entry. That Reset is the only step that is not disciplined.
   */
  lemma ResetBetween(cfg: Config, start: int) returns (before: seq<Action<nat>>, after: seq<Action<nat>>, i: nat)
    ensures var p := Windows(cfg);
            var g := Run(p, true, Start<nat, Entry>(start), before);
            var u := Run(p, false, Start<nat, Entry>(start), before);
            && DisciplinedRun(p, ANY, Start<nat, Entry>(start), before)
            && OneLapse(p, g, after, i) && after[i] == Reset("a") && FittingRun(p, false, u, after)
            && Runs.Total(p, true, g, after, "a") == cfg.limit
            && Runs.Total(p, false, u, after, "a") == 2 * cfg.limit
  {
    hide Run, Runs.Total, ServeOp, DisciplinedRun, OneLapse, FittingRun;
    var p, gap := Windows(cfg), LongGap(cfg);
    before, after, i := Runs.Prefix(0, gap, cfg.limit, Allow(1)), Runs.ResetRun(cfg.limit), 1;
    SpentIsFull(cfg, start);
    SpentIsFull(cfg, start + gap);
    RestedEntry(cfg, start);
    Runs.PrefixRuns(p, true, ANY, start, 0, gap, cfg.limit, Allow(1));
    Runs.PrefixRuns(p, false, ANY, start, 0, gap, cfg.limit, Allow(1));
    Runs.ResetShows(p, Entry(start / cfg.window, cfg.limit, 0), start, start + gap, cfg.limit);
  }

  // ----- the bounds on a key, in every interleaving -----

  /** The same uses as requests to one entry; a request for nothing stands for Remaining. */
  ghost function Plain(uses: seq<Bounds.Request>): seq<Request>
    decreases |uses|
  {
    if uses == [] then []
    else [Request(uses[0].at, if uses[0].op.Allow? then uses[0].op.n else 0)] + Plain(uses[1..])
  }

  ghost function InWindow(cfg: Config, i: int): int -> bool
  {
    t => t / cfg.window == i
  }

  ghost function During(lo: int, hi: int): int -> bool {
    t => lo <= t <= hi
  }

  lemma {:induction false} CellIsEntry(cfg: Config, e: Entry, uses: seq<Bounds.Request>, from: int, to: int, i: int,
                                       lo: int, hi: int)
    requires Bounds.Ordered(uses, from, to)
    ensures InOrder(Plain(uses), from)
    ensures Bounds.CellGrants(Windows(cfg), e, uses, InWindow(cfg, i)) == GrantedIn(cfg, e, Plain(uses), i)
    ensures Bounds.CellGrants(Windows(cfg), e, uses, During(lo, hi)) == GrantedBetween(cfg, e, Plain(uses), lo, hi)
    decreases |uses|
  {
    hide AllowN, Remaining, Advance;
    if uses != [] {
      var q := uses[0];
      var f := Windows(cfg).serve(e, q.op, q.at).0;
      CellIsEntry(cfg, f, uses[1..], q.at, to, i, lo, hi);
      assert Plain(uses)[1..] == Plain(uses[1..]);
    }
  }

  /**
   Aligned window `i` admits at most the limit; the interval of one window's length from `t` less than what its offset
   allows.
   */
  ghost predicate Bounded(cfg: Config, inWindow: nat, t: int, between: nat)
  {
    && inWindow <= cfg.limit
    && between * cfg.window < (cfg.limit + 1) * cfg.window + cfg.limit * (t % cfg.window)
    && between <= 2 * cfg.limit
    && (t % cfg.window == 0 ==> between <= cfg.limit)
  }

  /** Absent Reset and collection, for any key, over every run in every interleaving. */
  lemma KeyBounds(cfg: Config, clock: int, actions: seq<Action<nat>>, key: string, i: int, t: int)
    requires Bounds.Undisturbed(Windows(cfg), Start<nat, Entry>(clock), actions, key)
    ensures var p, s := Windows(cfg), Start<nat, Entry>(clock);
            Bounded(cfg, GrantedTo(p, false, s, actions, key, InWindow(cfg, i)), t,
                    GrantedTo(p, false, s, actions, key, During(t, t + cfg.window)))
  {
    hide Run, GrantedTo, Bounds.Undisturbed, Bounds.CellGrants, AllowN, Wf, Bounds.OneCell, GrantedIn, GrantedBetween;
    var p, s, hi := Windows(cfg), Start<nat, Entry>(clock), t + cfg.window;
    var end := Run(p, false, s, actions).clock;
    Bounds.StartOneCell<nat, Entry>(clock, key);
    var born, uses := Bounds.NewKeyRunsAlone(p, s, actions, key, InWindow(cfg, i));
    CellIsEntry(cfg, Blank(cfg, born), uses, born, end, i, t, hi);
    WindowBound(cfg, Blank(cfg, born), Plain(uses), born, i);
    born, uses := Bounds.NewKeyRunsAlone(p, s, actions, key, During(t, hi));
    CellIsEntry(cfg, Blank(cfg, born), uses, born, end, i, t, hi);
    IntervalBound(cfg, Blank(cfg, born), Plain(uses), born, t);
  }

  /** The same bounds for the collecting limiter, wherever its collections cannot be noticed. */
  lemma CollectingBounds(cfg: Config, sch: Schedule, clock: int, actions: seq<Action<nat>>, key: string, i: int, t: int)
    requires TimeoutSuffices(cfg) && Bounds.NoReset(actions, key)
    requires DisciplinedRun(Windows(cfg), sch, Start<nat, Entry>(clock), actions)
    ensures var p, s := Windows(cfg), Start<nat, Entry>(clock);
            Bounded(cfg, GrantedTo(p, true, s, actions, key, InWindow(cfg, i)), t,
                    GrantedTo(p, true, s, actions, key, During(t, t + cfg.window)))
  {
    hide GrantedTo, Bounds.Undisturbed, Lawful, DisciplinedRun, TimeoutSuffices, Bounded;
    var p, s := Windows(cfg), Start<nat, Entry>(clock);
    WeightlessIsLawful(cfg);
    StartAgrees<nat, Entry>(Weightless(cfg), false, clock);
    RunAgrees(p, Weightless(cfg), false, sch, s, s, actions);
    Bounds.DisciplinedIsUndisturbed(p, Weightless(cfg), false, sch, s, s, actions, key);
    KeyBounds(cfg, clock, actions, key, i, t);
  }

  // ----- which bounds need only that a collected entry's window is over -----

  /** What aligned window `i` may still admit. */
  ghost function Quota(cfg: Config, i: int): Budgets.Budget<Entry> {
    Budgets.Budget((e, t) => Room(cfg, i, e, t), t => if t / cfg.window > i then 0 else cfg.limit, 1, 0,
                   InWindow(cfg, i), (e, t) => Ok(cfg, e, t))
  }

  ghost function Room(cfg: Config, i: int, e: Entry, now: int): int {
    if now / cfg.window > i then 0 else if e.index == i then cfg.limit - e.curr else cfg.limit
  }

  /** Advancing and admitting touch the count of the current window only. */
  lemma QuotaSpent(cfg: Config, i: int, e: Entry, op: Op, now: int)
    ensures Budgets.Charges(Windows(cfg), Quota(cfg, i), e, op, now)
  {
    hide Used;
    if Ok(cfg, e, now) && Proper(op) {
      AdvanceOk(cfg, e, now, now);
      UsedBounds(cfg, Advance(cfg, e, now), now);
    }
  }

  lemma QuotaEarned(cfg: Config, i: int, e: Entry, now: int, elapsed: nat)
    ensures Budgets.Earns(Quota(cfg, i), e, now, elapsed)
  {
    DivMonotone(now, now + elapsed, cfg.window);
  }

  lemma QuotaReplaced(cfg: Config, i: int, e: Entry, now: int)
    requires cfg.window <= cfg.idleTimeout + 1
    ensures Budgets.Replaces(Windows(cfg), Quota(cfg, i), e, now)
  {
    if Ok(cfg, e, now) && e.index * cfg.window < now - cfg.idleTimeout {
      WindowOver(e.index, cfg.window, now, cfg.idleTimeout + 1);
    }
  }

  lemma KeepsOk(cfg: Config, i: int)
    ensures Bounds.Keeps(Windows(cfg), Quota(cfg, i).good)
  {
    hide AllowN, Advance;
    forall e, op, now, later
      ensures Bounds.KeepsAt(Windows(cfg), Quota(cfg, i).good, e, op, now, later)
    {
      BlankAlike(cfg, now);
      if Ok(cfg, e, now) {
        AdvanceOk(cfg, e, now, now);
        if op.Allow? && 0 < op.n {
          AllowStays(cfg, e, op.n, now, now);
        }
        if now <= later {
          DivMonotone(now, later, cfg.window);
        }
      }
    }
  }

  lemma QuotaIsSound(cfg: Config, i: int)
    requires cfg.window <= cfg.idleTimeout + 1
    ensures Budgets.Sound(Windows(cfg), Quota(cfg, i))
  {
    hide Budgets.Charges, Budgets.Earns, Budgets.Replaces;
    KeepsOk(cfg, i);
    forall e, op, now
      ensures Budgets.Charges(Windows(cfg), Quota(cfg, i), e, op, now)
    {
      QuotaSpent(cfg, i, e, op, now);
    }
    forall e, now, elapsed
      ensures Budgets.Earns(Quota(cfg, i), e, now, elapsed)
    {
      QuotaEarned(cfg, i, e, now, elapsed);
    }
    forall e, now
      ensures Budgets.Replaces(Windows(cfg), Quota(cfg, i), e, now)
    {
      QuotaReplaced(cfg, i, e, now);
    }
  }

  /** What a disciplined run of the collecting limiter grants on `key` while `when` holds. */
  ghost function Collected(cfg: Config, clock: int, actions: seq<Action<nat>>, key: string, when: int -> bool): nat {
    GrantedTo(Windows(cfg), true, Start<nat, Entry>(clock), actions, key, when)
  }

  ghost function CollectedFrom(cfg: Config, clock: int, actions: seq<Action<nat>>, key: string, t: int): nat {
    Collected(cfg, clock, actions, key, During(t, t + cfg.window))
  }

  ghost predicate Allowed(cfg: Config, sch: Schedule, clock: int, actions: seq<Action<nat>>, key: string) {
    DisciplinedRun(Windows(cfg), sch, Start<nat, Entry>(clock), actions) && Bounds.NoReset(actions, key)
  }

  lemma CollectingWindowBound(cfg: Config, sch: Schedule, clock: int, actions: seq<Action<nat>>, key: string, i: int)
    requires cfg.window <= cfg.idleTimeout + 1 && Allowed(cfg, sch, clock, actions, key)
    ensures Collected(cfg, clock, actions, key, InWindow(cfg, i)) <= cfg.limit
  {
    hide Run, DisciplinedRun, Budgets.Sound, Wf, Bounds.OneCell, GrantedTo;
    var p, s := Windows(cfg), Start<nat, Entry>(clock);
    QuotaIsSound(cfg, i);
    Bounds.StartOneCell<nat, Entry>(clock, key);
    Budgets.GrantsArePaid(p, Quota(cfg, i), sch, s, actions, key);
  }

  /** An interval of one window's length lies in two aligned windows. */
  lemma {:induction false} IntervalIsTwoWindows(cfg: Config, s: State<nat, Entry>, actions: seq<Action<nat>>,
                                               key: string, t: int)
    ensures var p, i := Windows(cfg), t / cfg.window;
            GrantedTo(p, true, s, actions, key, During(t, t + cfg.window)) <=
            GrantedTo(p, true, s, actions, key, InWindow(cfg, i)) + GrantedTo(p, true, s, actions, key,
                InWindow(cfg, i + 1))
    decreases |actions|
  {
    hide Step, Gain;
    if actions != [] {
      if t <= s.clock <= t + cfg.window {
        SameOrNext(t, s.clock, cfg.window);
      }
      IntervalIsTwoWindows(cfg, Step(Windows(cfg), true, s, actions[0]).0, actions[1..], key, t);
    }
  }

  /** Every aligned window of every key admits at most the limit, with collection. */
  ghost predicate WindowsBounded(cfg: Config, sch: Schedule) {
    forall clock, actions, key, i | Allowed(cfg, sch, clock, actions, key) ::
      Collected(cfg, clock, actions, key, InWindow(cfg, i)) <= cfg.limit
  }

  /** Every interval of one window's length admits at most twice the limit, with collection. */
  ghost predicate IntervalsBounded(cfg: Config, sch: Schedule) {
    forall clock, actions, key, t | Allowed(cfg, sch, clock, actions, key) ::
      CollectedFrom(cfg, clock, actions, key, t) <= 2 * cfg.limit
  }

  /** Both bounds survive collection, on any schedule, exactly when a collected entry's window is over. */
  lemma WindowBoundsIff(cfg: Config, sch: Schedule)
    ensures WindowsBounded(cfg, sch) <==> cfg.window <= cfg.idleTimeout + 1
    ensures IntervalsBounded(cfg, sch) <==> cfg.window <= cfg.idleTimeout + 1
  {
    hide Allowed, GrantedTo;
    if cfg.window <= cfg.idleTimeout + 1 {
      forall clock, actions, key, i | Allowed(cfg, sch, clock, actions, key)
        ensures Collected(cfg, clock, actions, key, InWindow(cfg, i)) <= cfg.limit
      {
        CollectingWindowBound(cfg, sch, clock, actions, key, i);
      }
      forall clock, actions, key, t | Allowed(cfg, sch, clock, actions, key)
        ensures CollectedFrom(cfg, clock, actions, key, t) <= 2 * cfg.limit
      {
        CollectingWindowBound(cfg, sch, clock, actions, key, t / cfg.window);
        CollectingWindowBound(cfg, sch, clock, actions, key, t / cfg.window + 1);
        IntervalIsTwoWindows(cfg, Start<nat, Entry>(clock), actions, key, t);
      }
    } else {
      var clock, actions := WindowFilledTwice(cfg, sch);
      assert Collected(cfg, clock, actions, "a", InWindow(cfg, 0)) > cfg.limit;
      var clock', actions' := IntervalOverfilled(cfg, sch);
      assert CollectedFrom(cfg, clock', actions', "a", 1) > 2 * cfg.limit;
    }
  }

  /** Waiting first changes neither the discipline nor what is granted. */
  lemma AfterWait(cfg: Config, sch: Schedule, start: int, wait: nat, rest: seq<Action<nat>>, key: string,
                  when: int -> bool)
    requires var s := Start<nat, Entry>(start).(clock := start + wait);
             DisciplinedRun(Windows(cfg), sch, s, rest) && Bounds.NoReset(rest, key)
             && forall t :: s.clock <= t <= Run(Windows(cfg), true, s, rest).clock ==> when(t)
    ensures Allowed(cfg, sch, start, [Tick(wait)] + rest, key)
    ensures Collected(cfg, start, [Tick(wait)] + rest, key, when) ==
            Runs.Total(Windows(cfg), true, Start<nat, Entry>(start).(clock := start + wait), rest, key)
  {
    hide Runs.Total, Step;
    var p, s := Windows(cfg), Start<nat, Entry>(start);
    var t := s.(clock := start + wait);
    TickGrantsNothing(cfg, s, wait, key);
    Runs.RunOne(p, true, s, Tick(wait));
    Runs.OneDisciplined(p, sch, s, Tick(wait));
    Runs.DisciplineAppend(p, sch, s, [Tick(wait)], rest);
    Runs.AllWithin(p, t, rest, key, when);
    assert ([Tick(wait)] + rest)[1..] == rest;
  }

  lemma TickGrantsNothing(cfg: Config, s: State<nat, Entry>, wait: nat, key: string)
    ensures var (t, answer) := Step(Windows(cfg), true, s, Tick(wait));
            t == s.(clock := s.clock + wait) && Gain(s, Tick(wait), answer, key) == 0
  {
  }

  /** A window that is still running when its entry is collected is filled again. */
  lemma WindowFilledTwice(cfg: Config, sch: Schedule) returns (start: int, actions: seq<Action<nat>>)
    requires cfg.idleTimeout + 1 < cfg.window
    ensures Allowed(cfg, sch, start, actions, "a")
            && Collected(cfg, start, actions, "a", InWindow(cfg, 0)) == 2 * cfg.limit
  {
    hide Run, DisciplinedRun, ServeOp, Allowed, GrantedTo;
    var p, gap, n := Windows(cfg), cfg.idleTimeout + 1, cfg.limit;
    start := 0 - Wait(cfg);
    actions := [Tick(Wait(cfg))] + Runs.Refill(gap, n);
    SpentIsFull(cfg, 0);
    SpentIsFull(cfg, gap);
    DivUnique(0, cfg.window, 0);
    Runs.RefillRuns(p, sch, start, 0, gap, n);
    Runs.RefillTotal(p, start, 0, gap, n);
    forall t | 0 <= t <= gap
      ensures InWindow(cfg, 0)(t)
    {
      DivUnique(t, cfg.window, 0);
    }
    AfterWait(cfg, sch, start, Wait(cfg), Runs.Refill(gap, n), "a", InWindow(cfg, 0));
  }

  lemma FilledAgain(cfg: Config)
    requires cfg.idleTimeout + 1 < cfg.window
    ensures Windows(cfg).serve(Entry(0, cfg.limit, 0), Allow(1), cfg.window + 1).1 == Granted(true)
  {
    var w, now := cfg.window, cfg.window + 1;
    DivUnique(now, w, 1);
    var a := Advance(cfg, Entry(0, cfg.limit, 0), now);
    assert a == Entry(1, 0, cfg.limit) && Ahead(cfg, now) == w - 1;
    assert cfg.limit * (w - 1) == w * cfg.limit - cfg.limit;
    DivMonotone(Scaled(cfg, a, now), w * cfg.limit - 1, w);
    DivUnique(w * cfg.limit - 1, w, cfg.limit - 1);
  }

  /** Filled, collected and filled again in one window, and used once more within a window's length. */
  lemma IntervalOverfilled(cfg: Config, sch: Schedule) returns (start: int, actions: seq<Action<nat>>)
    requires cfg.idleTimeout + 1 < cfg.window
    ensures Allowed(cfg, sch, start, actions, "a")
    ensures CollectedFrom(cfg, start, actions, "a", 1) == 2 * cfg.limit + 1
  {
    hide Run, DisciplinedRun, ServeOp, Allowed, GrantedTo, Runs.Total, Runs.Settled;
    var p, gap, n := Windows(cfg), cfg.idleTimeout, cfg.limit;
    var wait: nat := if cfg.gcInterval > gap then cfg.gcInterval - gap else 0;
    start := 1 - wait;
    var fill, more := Runs.Refill(gap, n), Runs.Later(cfg.window - gap, 4, 1);
    actions := [Tick(wait)] + (fill + more);
    var s := Start<nat, Entry>(start).(clock := 1);
    SpentIsFull(cfg, 1);
    SpentIsFull(cfg, 1 + gap);
    DivUnique(1, cfg.window, 0);
    DivUnique(1 + gap, cfg.window, 0);
    Runs.RefillRuns(p, sch, start, 1, gap, n);
    Runs.RefillTotal(p, start, 1, gap, n);
    var t := Run(p, true, s, fill);
    var e := Entry(0, n, 0);
    FilledAgain(cfg);
    Runs.LaterRuns(p, true, sch, t, 2, e, 1 + gap, cfg.window - gap, 4, 1);
    Runs.LaterTotal(p, t, 2, e, 1 + gap, cfg.window - gap, 4, 1);
    Runs.RunAppend(p, true, s, fill, more);
    Runs.DisciplineAppend(p, sch, s, fill, more);
    Runs.TotalAppend(p, true, s, fill, more, "a");
    SettledClock(Run(p, true, t, more), 2, p.serve(e, Allow(1), cfg.window + 1).0, cfg.window + 1);
    AfterWait(cfg, sch, start, wait, fill + more, "a", During(1, 1 + cfg.window));
  }

  lemma SettledClock(s: State<nat, Entry>, id: nat, e: Entry, now: int)
    requires Runs.Settled(s, id, e, now)
    ensures s.clock == now
  {
  }

  // ----- the limiter object -----

  const FIVE_MINUTES := 300_000_000_000

  function Numbered(cfg: Config, start: int, curr: int, prev: int): Entry
  {
    Entry(start / cfg.window, curr, prev)
  }

  /** The window starts at a multiple of the window length, not after `now`. */
  ghost predicate Aligned(cfg: Config, start: int, now: int)
  {
    start == cfg.window * (start / cfg.window) && start <= now
  }

  function Truncate(now: int, w: int): int
    requires 0 < w
  {
    now - now % w
  }

  lemma TruncateAligns(now: int, w: int)
    requires 0 < w
    ensures Truncate(now, w) == w * (now / w) <= now && Truncate(now, w) / w == now / w
  {
    DivBounds(now, w);
    DivUnique(w * (now / w), w, now / w);
  }

  /** Comparing window starts is comparing window numbers. */
  lemma StartsCompare(w: int, a: int, b: int)
    requires 0 < w
    ensures w * a == w * b <==> a == b
    ensures w * a < w * b <==> a < b
  {
    if w * a < w * b {
      MulCancel(w, a, b);
    } else if w * b < w * a {
      MulCancel(w, b, a);
    } else if a < b {
      MulStrict(w, a, b);
    } else if b < a {
      MulStrict(w, b, a);
    }
  }

  lemma MulStrict(w: int, a: int, b: int)
    requires 0 < w && a < b
    ensures w * a < w * b
  {
    MulMonotone(w, a + 1, b);
    assert w * (a + 1) == w * a + w;
  }

  /** An entry as the program keeps it, dated by the start of its window. */
  class SwEntry {
    var currWindowStart: int
    var currCount: int
    var prevCount: int

    constructor (start: int)
      ensures currWindowStart == start && currCount == 0 && prevCount == 0
    {
      currWindowStart, currCount, prevCount := start, 0, 0;
    }

    ghost function View(cfg: Config): Entry
      reads this
    {
      Numbered(cfg, currWindowStart, currCount, prevCount)
    }

    method AdvanceTo(ghost cfg: Config, now: int, window: int)
      requires window == cfg.window && Aligned(cfg, currWindowStart, now)
      modifies this
      ensures View(cfg) == Advance(cfg, old(View(cfg)), now) && Aligned(cfg, currWindowStart, now)
      ensures currWindowStart == window * (now / window)
    {
      var w := window;
      ghost var i, j := currWindowStart / w, now / w;
      var currentWindow := Truncate(now, w);
      TruncateAligns(now, w);
      DivMonotone(currWindowStart, now, w);
      StartsCompare(w, i, j);
      StartsCompare(w, i + 1, j);
      assert w * (i + 1) == w * i + w;
      if currentWindow == currWindowStart {
        return;
      }
      if currentWindow == currWindowStart + w {
        prevCount, currCount, currWindowStart := currCount, 0, currentWindow;
      } else if currentWindow > currWindowStart + w {
        prevCount, currCount, currWindowStart := 0, 0, currentWindow;
      }
    }

    /** The integer part of the weighted estimate, after advancing. */
    method EstimatedCount(ghost cfg: Config, now: int, window: int) returns (count: int)
      requires window == cfg.window && Aligned(cfg, currWindowStart, now)
      modifies this
      ensures View(cfg) == Advance(cfg, old(View(cfg)), now) && Aligned(cfg, currWindowStart, now)
      ensures count == Used(cfg, View(cfg), now)
    {
      hide Advance;
      AdvanceTo(cfg, now, window);
      DivBounds(now, window);
      var elapsed := now - currWindowStart;
      var capped := if window < elapsed then window else elapsed;
      var timeInCurrentWindow := if capped < 0 then 0 else capped;
      count := (prevCount * (window - timeInCurrentWindow) + currCount * window) / window;
    }
  }

  ghost function Contents(cfg: Config, pool: set<SwEntry>): (m: map<SwEntry, Entry>)
    reads pool
    ensures m.Keys == pool && forall e :: e in pool ==> m[e] == e.View(cfg)
  {
    map e | e in pool :: e.View(cfg)
  }

  /** Each method is one critical section, except the last three, which are whole calls with nobody in between. */
  class SlidingWindowLimiter {
    const cfg: Config
    var windows: map<string, SwEntry>
    var lastGC: int
    /** Every entry there has been: callers may still hold those that are no longer in the map. */
    ghost var pool: set<SwEntry>

    ghost predicate Valid(now: int)
      reads this, pool
    {
      && (forall k :: k in windows ==> windows[k] in pool)
      && (forall e :: e in pool ==> Aligned(cfg, e.currWindowStart, now))
    }

    ghost function View(): Store<SwEntry, Entry>
      reads this, pool
    {
      Store(windows, Contents(cfg, pool), lastGC)
    }

    constructor (limit: int, window: int, now: int)
      ensures Valid(now) && View() == Store(map[], map[], now) && pool == {}
      ensures cfg.limit == (if limit <= 0 then 1 else limit)
      ensures cfg.window == (if window <= 0 then 60_000_000_000 else window)
      ensures cfg.gcInterval == cfg.idleTimeout == FIVE_MINUTES
    {
      cfg := Config(if limit <= 0 then 1 else limit, if window <= 0 then 60_000_000_000 else window,
                    FIVE_MINUTES, FIVE_MINUTES);
      windows, pool := map[], {};
      lastGC := now;
    }

    /** Under the read lock. */
    method Find(key: string, ghost now: int) returns (e: SwEntry?)
      requires Valid(now)
      ensures if key in View().table then e == View().table[key] else e == null
    {
      e := if key in windows then windows[key] else null;
    }

    method MaybeGC(now: int)
      requires Valid(now)
      modifies this`windows, this`lastGC
      ensures Valid(now) && View() == Collect(Windows(cfg), old(View()), now)
    {
      hide Collect, Aligned;
      if now - lastGC < cfg.gcInterval {
        SameInterval(cfg, View(), now);
        return;
      }
      var cutoff, left := now - cfg.idleTimeout, windows.Keys;
      while left != {}
        invariant left <= windows.Keys <= old(windows).Keys && lastGC == old(lastGC)
        invariant forall k :: k in windows ==> windows[k] == old(windows)[k]
        invariant forall k :: k in windows && k !in left ==> windows[k].currWindowStart >= cutoff
        invariant forall k :: k in old(windows) && k !in windows ==> old(windows)[k].currWindowStart < cutoff
        decreases left
      {
        var k :| k in left;
        if windows[k].currWindowStart < cutoff {
          windows := windows - {k};
        }
        left := left - {k};
      }
      lastGC := now;
      forall k | k in old(windows)
        ensures old(windows)[k].View(cfg).index * cfg.window == old(windows)[k].currWindowStart
      {
        AlignedStart(cfg, old(windows)[k].currWindowStart, now);
      }
      CollectedTable(cfg, old(View()), windows, now);
    }

    /** Under the write lock. */
    method MakeEntry(key: string, now: int) returns (e: SwEntry)
      requires Valid(now)
      modifies this`windows, this`lastGC, this`pool
      ensures Valid(now) && old(pool) <= pool && fresh(pool - old(pool)) && e in pool
      ensures (View(), e) == MakeCell(Windows(cfg), true, old(View()), key, e, now)
      ensures key !in Collect(Windows(cfg), old(View()), now).table ==> fresh(e) && e !in old(View()).cells
    {
      hide Collect, Windows, Aligned, Numbered;
      MaybeGC(now);
      if key in windows {
        return windows[key];
      }
      ghost var before := View();
      e := new SwEntry(Truncate(now, cfg.window));
      BlankAligned(cfg, now);
      windows, pool := windows[key := e], pool + {e};
      assert Contents(cfg, pool) == before.cells[e := Blank(cfg, now)];
    }

    /** Under the lock of the entry, which need no longer be in the map. */
    method Spend(e: SwEntry, n: int, now: int) returns (ok: bool)
      requires Valid(now) && e in pool
      modifies e
      ensures Valid(now) && (View(), Granted(ok)) == UseCell(Windows(cfg), old(View()), e, Allow(n), now)
    {
      hide Advance, Used, Aligned, UseCell, Windows;
      ghost var before := View();
      var est := e.EstimatedCount(cfg, now, cfg.window);
      ok := est + n <= cfg.limit;
      if ok {
        e.currCount := e.currCount + n;
      }
      UseIsServe(cfg, before, e, Allow(n), now);
      assert Contents(cfg, pool) == before.cells[e := e.View(cfg)];
    }

    method Count(e: SwEntry, now: int) returns (n: int)
      requires Valid(now) && e in pool
      modifies e
      ensures Valid(now) && (View(), Left(n)) == UseCell(Windows(cfg), old(View()), e, Read, now)
    {
      hide Advance, Used, Aligned, UseCell, Windows;
      ghost var before := View();
      var est := e.EstimatedCount(cfg, now, cfg.window);
      n := cfg.limit - est;
      if n < 0 {
        n := 0;
      }
      UseIsServe(cfg, before, e, Read, now);
      assert Contents(cfg, pool) == before.cells[e := e.View(cfg)];
    }

    method GetEntry(key: string, now: int) returns (e: SwEntry)
      requires Valid(now)
      modifies this`windows, this`lastGC, this`pool
      ensures Valid(now) && old(pool) <= pool && fresh(pool - old(pool)) && e in pool
      ensures (View(), e) == if key in old(View()).table then (old(View()), old(View()).table[key])
                             else MakeCell(Windows(cfg), true, old(View()), key, e, now)
    {
      hide Aligned, MakeCell, Windows;
      var found := Find(key, now);
      if found != null {
        return found;
      }
      e := MakeEntry(key, now);
    }

    method AllowEvents(key: string, n: int, now: int) returns (ok: bool)
      requires Valid(now)
      modifies this, pool
      ensures Valid(now)
      ensures n <= 0 ==> ok && View() == old(View())
      ensures 0 < n ==> exists e :: e in pool
                                    && (View(), Granted(ok)) ==
                                       WholeCall(Windows(cfg), true, old(View()), key, Allow(n), e, now)
    {
      hide MakeCell, UseCell, Aligned, Windows;
      if n <= 0 {
        return true;
      }
      var e := GetEntry(key, now);
      ok := Spend(e, n, now);
    }

    method RemainingEvents(key: string, now: int) returns (n: int)
      requires Valid(now)
      modifies this, pool
      ensures Valid(now)
      ensures exists e :: e in pool
                          && (View(), Left(n)) == WholeCall(Windows(cfg), true, old(View()), key, Read, e, now)
    {
      hide MakeCell, UseCell, Aligned, Windows;
      var e := GetEntry(key, now);
      n := Count(e, now);
    }

    method ResetKey(key: string, ghost now: int)
      requires Valid(now)
      modifies this`windows
      ensures Valid(now) && View() == DropKey(old(View()), key)
    {
      windows := windows - {key};
    }
  }

  lemma UseIsServe(cfg: Config, s: Store<SwEntry, Entry>, e: SwEntry, op: Op, now: int)
    requires e in s.cells
    ensures var (f, answer) := ServeOp(cfg, s.cells[e], op, now);
            UseCell(Windows(cfg), s, e, op, now) == (s.(cells := s.cells[e := f]), answer)
  {
  }

  lemma SameInterval(cfg: Config, s: Store<SwEntry, Entry>, now: int)
    requires now - s.lastGC < cfg.gcInterval
    ensures Collect(Windows(cfg), s, now) == s
  {
  }

  /** Dropping exactly the idle entries is collecting. */
  lemma CollectedTable(cfg: Config, s: Store<SwEntry, Entry>, table: map<string, SwEntry>, now: int)
    requires now - s.lastGC >= cfg.gcInterval && table.Keys <= s.table.Keys
    requires forall k :: k in s.table ==> s.table[k] in s.cells
    requires forall k :: k in table ==>
               table[k] == s.table[k] && s.cells[s.table[k]].index * cfg.window >= now - cfg.idleTimeout
    requires forall k :: k in s.table && k !in table ==> s.cells[s.table[k]].index * cfg.window < now - cfg.idleTimeout
    ensures Store(table, s.cells, now) == Collect(Windows(cfg), s, now)
  {
    var c := Collect(Windows(cfg), s, now);
    forall k | k in s.table
      ensures k in table <==> k in c.table
    {
      assert Stale(Windows(cfg), s, k, now) <==> s.cells[s.table[k]].index * cfg.window < now - cfg.idleTimeout;
    }
    assert table == c.table;
  }

  lemma BlankAligned(cfg: Config, now: int)
    ensures var start := Truncate(now, cfg.window);
            Aligned(cfg, start, now) && Numbered(cfg, start, 0, 0) == Blank(cfg, now) == Windows(cfg).blank(now)
  {
    TruncateAligns(now, cfg.window);
  }

  lemma AlignedStart(cfg: Config, start: int, now: int)
    requires Aligned(cfg, start, now)
    ensures (start / cfg.window) * cfg.window == start
  {
  }
}
