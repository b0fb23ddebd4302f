/** The token-bucket limiter over many keys and callers, and when collecting idle keys can be noticed. */
module TokenLimiter {
  import opened TokenBucket
  import opened Registry
  import opened RegistrySimulation
  import Runs = RegistryRuns
  import Bounds = RegistryBounds
  import Budgets = RegistryBudget

  function Serve(cfg: Config, b: Bucket, op: Op, now: int): (Bucket, Answer)
  {
    match op
    case Allow(n) => var (c, ok) := AllowN(cfg, b, n, now); (c, Granted(ok))
    case Read => (b, Left(Remaining(cfg, b, now)))
  }

  function Tokens(cfg: Config): Policy<Bucket>
  {
    Policy(t => Full(cfg, t), (b, op, t) => Serve(cfg, b, op, t),
           (b: Bucket, t) => b.last < t - cfg.idleTimeout, cfg.gcInterval)
  }

  // ----- why a collection may go unnoticed -----

  /** A bucket that has been idle long enough to be full again. */
  ghost predicate Recovered(cfg: Config, b: Bucket, now: int) {
    Ok(cfg, b, now) && cfg.capacity * cfg.refillRate <= now - b.last
  }

  lemma RecoveredIsFull(cfg: Config, b: Bucket, now: int)
    requires Recovered(cfg, b, now)
    ensures Refilled(cfg, b, now) == Full(cfg, now)
  {
    var rate, q := cfg.refillRate, (now - b.last) / cfg.refillRate;
    Quotient(now - b.last, rate);
    assert rate * (q + 1) == rate * q + rate;
    if q < cfg.capacity {
      Monotone(rate, q + 1, cfg.capacity);
    }
  }

  /** Buckets are the same, or the collecting limiter has just made a new one in place of one that has recovered. */
  ghost predicate SameOrRevived(cfg: Config, a: Bucket, b: Bucket, now: int) {
    Ok(cfg, a, now) && Ok(cfg, b, now) && (a == b || (a == Full(cfg, now) && Recovered(cfg, b, now)))
  }

  ghost function Prompt(cfg: Config): Likeness<Bucket> {
    Likeness((a, b, t) => SameOrRevived(cfg, a, b, t),
             (a, b, t) => a == b && Ok(cfg, a, t),
             (b, t) => Recovered(cfg, b, t))
  }

  lemma PromptServes(cfg: Config, a: Bucket, b: Bucket, op: Op, now: int)
    ensures ServesAlike(Tokens(cfg), Prompt(cfg), true, a, b, op, now)
  {
    hide Refilled;
    if SameOrRevived(cfg, a, b, now) && op.Allow? && 0 < op.n {
      if a != b {
        RecoveredIsFull(cfg, b, now);
        RefilledFull(cfg, now);
      }
      AllowNOk(cfg, a, op.n, now);
    }
  }

  lemma RefilledFull(cfg: Config, now: int)
    ensures Refilled(cfg, Full(cfg, now), now) == Full(cfg, now)
  {
  }

  /** A timeout that lets every bucket fill up: lawful as long as new buckets are used before time passes. */
  lemma PromptIsLawful(cfg: Config)
    requires cfg.capacity * cfg.refillRate <= cfg.idleTimeout + 1
    ensures Lawful(Tokens(cfg), Prompt(cfg), true)
  {
    hide ServesAlike;
    forall a, b, op, now
      ensures ServesAlike(Tokens(cfg), Prompt(cfg), true, a, b, op, now)
    {
      PromptServes(cfg, a, b, op, now);
    }
  }

  /** Buckets that refill to the same. */
  ghost predicate RefillAlike(cfg: Config, a: Bucket, b: Bucket, now: int)
  {
    Ok(cfg, a, now) && Ok(cfg, b, now) && Refilled(cfg, a, now) == Refilled(cfg, b, now)
  }

  ghost function Steady(cfg: Config): Likeness<Bucket>
  {
    Likeness((a, b, t) => RefillAlike(cfg, a, b, t), (a, b, t) => RefillAlike(cfg, a, b, t),
             (b, t) => RefillAlike(cfg, Full(cfg, t), b, t))
  }

  /** With a token per clock unit there is no fraction to carry: a bucket is what it has refilled to. */
  lemma RefilledEachUnit(cfg: Config, b: Bucket, now: int)
    requires cfg.refillRate == 1 && Ok(cfg, b, now)
    ensures var tokens := b.tokens + (now - b.last);
            Refilled(cfg, b, now) == Bucket(if tokens >= cfg.capacity then cfg.capacity else tokens, now)
            && Remaining(cfg, b, now) == Refilled(cfg, b, now).tokens
  {
    assert (now - b.last) / 1 == now - b.last;
  }

  lemma SteadyServes(cfg: Config, a: Bucket, b: Bucket, op: Op, now: int)
    requires cfg.refillRate == 1
    ensures ServesAlike(Tokens(cfg), Steady(cfg), false, a, b, op, now)
  {
    hide Refilled, Remaining;
    if RefillAlike(cfg, a, b, now) && Proper(op) {
      RefilledEachUnit(cfg, a, now);
      RefilledEachUnit(cfg, b, now);
      if op.Allow? {
        AllowNOk(cfg, a, op.n, now);
        AllowNOk(cfg, b, op.n, now);
      }
    }
  }

  lemma SteadyLasts(cfg: Config, a: Bucket, b: Bucket, now: int, later: int)
    requires cfg.refillRate == 1
    ensures Lasts(Steady(cfg), false, a, b, now, later)
  {
    hide Refilled;
    if Ok(cfg, b, now) && now <= later {
      RefilledEachUnit(cfg, b, now);
      RefilledEachUnit(cfg, b, later);
      RefilledEachUnit(cfg, Full(cfg, now), now);
      RefilledEachUnit(cfg, Full(cfg, later), later);
      if Ok(cfg, a, now) {
        RefilledEachUnit(cfg, a, now);
        RefilledEachUnit(cfg, a, later);
      }
    }
  }

  lemma SteadyForgets(cfg: Config, a: Bucket, b: Bucket, now: int)
    requires cfg.refillRate == 1 && cfg.capacity <= cfg.idleTimeout + 1
    ensures Forgets(Tokens(cfg), Steady(cfg), a, b, now)
  {
    hide Refilled;
    RefilledFull(cfg, now);
    if RefillAlike(cfg, a, b, now) {
      RefilledEachUnit(cfg, a, now);
    }
  }

  lemma SteadyIsLawful(cfg: Config)
    requires cfg.refillRate == 1 && cfg.capacity <= cfg.idleTimeout + 1
    ensures Lawful(Tokens(cfg), Steady(cfg), false)
  {
    hide ServesAlike, Lasts, Forgets;
    forall a, b, op, now
      ensures ServesAlike(Tokens(cfg), Steady(cfg), false, a, b, op, now)
    {
      SteadyServes(cfg, a, b, op, now);
    }
    forall a, b, now, later
      ensures Lasts(Steady(cfg), false, a, b, now, later)
    {
      SteadyLasts(cfg, a, b, now, later);
    }
    forall a, b, now
      ensures Forgets(Tokens(cfg), Steady(cfg), a, b, now)
    {
      SteadyForgets(cfg, a, b, now);
    }
  }

  // ----- the exact condition -----

  /**
   Collected buckets have filled up; and a new bucket is used as soon as it is made, unless refilling leaves no
   fraction.
   */
  predicate TimeoutSuffices(cfg: Config, sch: Schedule) {
    cfg.capacity * cfg.refillRate <= cfg.idleTimeout + 1
    && (cfg.refillRate == 1 || (!sch.overlap.Freely? && !sch.peeks))
  }

  /** How long to wait before the first call, so that a bucket is collected one unit after its timeout. */
  function Wait(cfg: Config): nat {
    if cfg.gcInterval > cfg.idleTimeout + 1 then cfg.gcInterval - cfg.idleTimeout - 1 else 0
  }

  lemma SpentIsEmpty(cfg: Config, t: int)
    ensures Runs.Spent(Tokens(cfg), t, cfg.capacity) == Bucket(0, t)
    ensures Tokens(cfg).serve(Full(cfg, t), Allow(cfg.capacity), t) == (Bucket(0, t), Granted(true))
  {
    RefilledFull(cfg, t);
  }

  /** An idle bucket that is collected before it is full comes back full too early. */
  lemma EarlyCollectionShows(cfg: Config, sch: Schedule, start: int)
    requires cfg.idleTimeout + 1 < cfg.capacity * cfg.refillRate
    ensures !UnnoticedFrom(Tokens(cfg), sch, start)
  {
    hide UnnoticedFrom, Refilled;
    var t0, t1 := start + Wait(cfg), start + Wait(cfg) + cfg.idleTimeout + 1;
    SpentIsEmpty(cfg, t0);
    SpentIsEmpty(cfg, t1);
    NotYetFull(cfg, t0, t1);
    Runs.EarlyShows(Tokens(cfg), sch, start, Wait(cfg), cfg.idleTimeout + 1, cfg.capacity);
  }

  lemma NotYetFull(cfg: Config, t0: int, t1: int)
    requires t0 <= t1 && t1 - t0 < cfg.capacity * cfg.refillRate
    ensures !AllowN(cfg, Bucket(0, t0), cfg.capacity, t1).1
  {
    var rate, q := cfg.refillRate, (t1 - t0) / cfg.refillRate;
    Quotient(t1 - t0, rate);
    if q >= cfg.capacity {
      Monotone(rate, cfg.capacity, q);
    }
  }

  /** A new bucket is dated when it is made, a recovered one when it is next used: the fraction carried differs. */
  lemma CarryDiffers(cfg: Config, t0: int, now: int)
    requires 2 <= cfg.refillRate && Recovered(cfg, Bucket(0, t0), now)
    ensures var rate := cfg.refillRate;
            var a := AllowN(cfg, Full(cfg, now), cfg.capacity, now + 1).0;
            var b := AllowN(cfg, Bucket(0, t0), cfg.capacity, now + 1).0;
            AllowN(cfg, a, 1, now + rate).1 && !AllowN(cfg, b, 1, now + rate).1
  {
    var rate := cfg.refillRate;
    assert 1 / rate == 0 && (rate - 1) / rate == 0 && rate / rate == 1;
    RecoveredIsFull(cfg, Bucket(0, t0), now + 1);
  }

  lemma FractionShows(cfg: Config, sch: Schedule, start: int)
    requires cfg.capacity * cfg.refillRate <= cfg.idleTimeout + 1
    requires 2 <= cfg.refillRate && (sch.overlap.Freely? || sch.peeks)
    ensures !UnnoticedFrom(Tokens(cfg), sch, start)
  {
    hide UnnoticedFrom, Refilled, AllowN;
    var p, t0, gap, rate := Tokens(cfg), start + Wait(cfg), cfg.idleTimeout + 1, cfg.refillRate;
    var now := t0 + gap;
    SpentIsEmpty(cfg, t0);
    CarryDiffers(cfg, t0, now);
    if sch.peeks {
      Runs.PeekShows(p, sch, start, Wait(cfg), gap, cfg.capacity, 1, rate - 1, 1);
    } else {
      Runs.LateShows(p, false, start, Wait(cfg), gap, cfg.capacity, 1, rate - 1, 1);
    }
  }

  /**
   On runs in which no call straddles a collection of its bucket: when calls do not overlap in time and nobody asks
   for Remaining, collection goes unnoticed exactly when collected buckets have had time to fill up. Otherwise the
   refill period must in addition be a single clock unit.
   */
  lemma UnnoticedIff(cfg: Config, sch: Schedule, start: int)
    ensures UnnoticedFrom(Tokens(cfg), sch, start) <==> TimeoutSuffices(cfg, sch)
  {
    hide UnnoticedFrom;
    if cfg.idleTimeout + 1 < cfg.capacity * cfg.refillRate {
      EarlyCollectionShows(cfg, sch, start);
    } else if cfg.refillRate == 1 {
      SteadyIsLawful(cfg);
      LawfulIsUnnoticed(Tokens(cfg), Steady(cfg), false, sch, start);
    } else if sch.overlap.Freely? || sch.peeks {
      FractionShows(cfg, sch, start);
    } else {
      PromptIsLawful(cfg);
      LawfulIsUnnoticed(Tokens(cfg), Prompt(cfg), true, sch, start);
    }
  }

  /** Calls one at a time: AllowN and Reset alone, and with Remaining among them. */
  lemma SequentialIff(cfg: Config, start: int)
    ensures UnnoticedFrom(Tokens(cfg), Schedule(OneAtATime, false), start) <==>
            cfg.capacity * cfg.refillRate <= cfg.idleTimeout + 1
    ensures UnnoticedFrom(Tokens(cfg), Schedule(OneAtATime, true), start) <==>
            cfg.refillRate == 1 && cfg.capacity <= cfg.idleTimeout + 1
  {
    hide UnnoticedFrom;
    UnnoticedIff(cfg, Schedule(OneAtATime, false), start);
    UnnoticedIff(cfg, Schedule(OneAtATime, true), start);
  }

  // ----- calls that straddle a collection -----

  /** Long enough for a bucket to fill up and to be collected. */
  function LongGap(cfg: Config): (gap: nat)
    ensures cfg.capacity * cfg.refillRate <= gap && cfg.idleTimeout < gap && cfg.gcInterval <= gap
  {
    Monotone(cfg.refillRate, 0, cfg.capacity);
    cfg.capacity * cfg.refillRate + cfg.idleTimeout + 1 + cfg.gcInterval
  }

  lemma RestedBucket(cfg: Config, t: int, gap: nat)
    requires cfg.capacity * cfg.refillRate <= gap
    ensures Tokens(cfg).serve(Bucket(0, t), Allow(cfg.capacity), t + gap) == (Bucket(0, t + gap), Granted(true))
    ensures Tokens(cfg).serve(Bucket(0, t + gap), Allow(cfg.capacity), t + gap).1 == Granted(false)
  {
    RecoveredIsFull(cfg, Bucket(0, t), t + gap);
  }

  /**
   Whatever the configuration: a caller that holds a bucket across its collection makes the limiter grant twice the
   capacity at one instant. That collection is the only step that is not disciplined.
   */
  lemma OrphanedBucket(cfg: Config, start: int) returns (before: seq<Action<nat>>, after: seq<Action<nat>>, i: nat)
    ensures var p := Tokens(cfg);
            var s := Run(p, true, Start<nat, Bucket>(start), before);
            && DisciplinedRun(p, ANY, Start<nat, Bucket>(start), before)
            && s == Run(p, false, Start<nat, Bucket>(start), before)
            && OneLapse(p, s, after, i) && after[i].Make? && FittingRun(p, false, s, after)
            && Run(p, true, s, after).clock == s.clock
            && Runs.Total(p, true, s, after, "a") == 2 * cfg.capacity
            && Runs.Total(p, false, s, after, "a") == cfg.capacity
  {
    hide Run, Runs.Total, DisciplinedRun, OneLapse, FittingRun;
    var p, gap := Tokens(cfg), LongGap(cfg);
    before, after, i := Runs.Opening(0, gap, cfg.capacity), Runs.OrphanRun(cfg.capacity), 2;
    Runs.OpeningRuns(p, true, ANY, start, 0, gap, cfg.capacity);
    Runs.OpeningRuns(p, false, ANY, start, 0, gap, cfg.capacity);
    SpentIsEmpty(cfg, start);
    SpentIsEmpty(cfg, start + gap);
    RestedBucket(cfg, start, gap);
    Runs.OrphanShows(p, Bucket(0, start), start, start + gap, cfg.capacity);
  }

  /**
   So does the non-collecting limiter where the collecting one does not, when a Reset falls between a failed look-up
   and the making of the bucket. That Reset is the only step that is not disciplined.
   */
  lemma ResetBetween(cfg: Config, start: int) returns (before: seq<Action<nat>>, after: seq<Action<nat>>, i: nat)
    ensures var p := Tokens(cfg);
            var g := Run(p, true, Start<nat, Bucket>(start), before);
            var u := Run(p, false, Start<nat, Bucket>(start), before);
            && DisciplinedRun(p, ANY, Start<nat, Bucket>(start), before)
            && OneLapse(p, g, after, i) && after[i] == Reset("a") && FittingRun(p, false, u, after)
            && Runs.Total(p, true, g, after, "a") == cfg.capacity
            && Runs.Total(p, false, u, after, "a") == 2 * cfg.capacity
  {
    hide Run, Runs.Total, DisciplinedRun, OneLapse, FittingRun;
    var p, gap := Tokens(cfg), LongGap(cfg);
    before, after, i := Runs.Prefix(0, gap, cfg.capacity, Allow(1)), Runs.ResetRun(cfg.capacity), 1;
    SpentIsEmpty(cfg, start);
    SpentIsEmpty(cfg, start + gap);
    RestedBucket(cfg, start, gap);
    Runs.PrefixRuns(p, true, ANY, start, 0, gap, cfg.capacity, Allow(1));
    Runs.PrefixRuns(p, false, ANY, start, 0, gap, cfg.capacity, Allow(1));
    Runs.ResetShows(p, Bucket(0, start), start, start + gap, cfg.capacity);
  }

  // ----- the rate bound on a key, in every interleaving -----

  /** The same uses as requests to one bucket; Remaining leaves it alone. */
  ghost function Plain(uses: seq<Bounds.Request>): seq<Request>
    decreases |uses|
  {
    if uses == [] then []
    else [Request(uses[0].at, if uses[0].op.Allow? then uses[0].op.n else 0)] + Plain(uses[1..])
  }

  lemma {:induction false} CellIsBucket(cfg: Config, b: Bucket, uses: seq<Bounds.Request>, from: int, to: int)
    requires Bounds.Ordered(uses, from, to)
    ensures from <= to && Within(Plain(uses), from, to)
    ensures Bounds.CellGrants(Tokens(cfg), b, uses, _ => true) == Admitted(cfg, b, Plain(uses))
    decreases |uses|
  {
    hide AllowN, Remaining;
    if uses != [] {
      var q := uses[0];
      var c := Tokens(cfg).serve(b, q.op, q.at).0;
      CellIsBucket(cfg, c, uses[1..], q.at, to);
      assert Plain(uses)[1..] == Plain(uses[1..]);
    }
  }

  ghost function InRange(cfg: Config): (Bucket, int) -> bool {
    (b, t) => Ok(cfg, b, t)
  }

  lemma KeepsOk(cfg: Config)
    ensures Bounds.Keeps(Tokens(cfg), InRange(cfg))
  {
    hide AllowN;
    forall b, op, now, later
      ensures Bounds.KeepsAt(Tokens(cfg), InRange(cfg), b, op, now, later)
    {
      if Ok(cfg, b, now) && op.Allow? && 0 < op.n {
        AllowNOk(cfg, b, op.n, now);
      }
    }
  }

  /** What a key is granted in all. */
  ghost function GrantedOn(cfg: Config, gc: bool, s: State<nat, Bucket>, actions: seq<Action<nat>>, key: string): nat
  {
    GrantedTo(Tokens(cfg), gc, s, actions, key, _ => true)
  }

  ghost predicate Bounded(cfg: Config, granted: nat, isNew: bool, elapsed: int) {
    if isNew then cfg.refillRate * (granted - cfg.capacity) <= elapsed
    else cfg.refillRate * (granted - cfg.capacity - 1) < elapsed
  }

  /** Absent Reset and collection, from any reachable state and in every interleaving; sharper when the key is new. */
  lemma KeyRateBound(cfg: Config, clock: int, before: seq<Action<nat>>, after: seq<Action<nat>>, key: string)
    requires var p := Tokens(cfg);
             && Bounds.Undisturbed(p, Start<nat, Bucket>(clock), before, key)
             && Bounds.Undisturbed(p, Run(p, false, Start<nat, Bucket>(clock), before), after, key)
    ensures var s := Run(Tokens(cfg), false, Start<nat, Bucket>(clock), before);
            var t := Run(Tokens(cfg), false, s, after);
            Bounded(cfg, GrantedOn(cfg, false, s, after, key), key !in s.store.table, t.clock - s.clock)
  {
    hide Run, GrantedTo, Bounds.Undisturbed, Bounds.Keeps, Bounds.OneCell, Wf, Bounds.CellGrants, AllowN;
    var p, good := Tokens(cfg), InRange(cfg);
    KeepsOk(cfg);
    Bounds.StartOneCell<nat, Bucket>(clock, key);
    Bounds.RunGood(p, good, Start<nat, Bucket>(clock), before, key);
    var s := Run(p, false, Start<nat, Bucket>(clock), before);
    var t := Run(p, false, s, after);
    if key in s.store.table {
      Bounds.KeyRunsAlone(p, s, after, key, _ => true);
      var uses := Bounds.UsesOf(p, s, after, key);
      CellIsBucket(cfg, CellOf(s, key), uses, s.clock, t.clock);
      RateBound(cfg, CellOf(s, key), Plain(uses), s.clock, t.clock);
    } else {
      var born, uses := Bounds.NewKeyRunsAlone(p, s, after, key, _ => true);
      CellIsBucket(cfg, Full(cfg, born), uses, born, t.clock);
      RateBoundFromCreation(cfg, Plain(uses), born, t.clock);
    }
  }

  // ----- the same with collection -----

  /** What a bucket is worth now, in time; a key without one is worth a full bucket. */
  ghost function Credits(cfg: Config): Budgets.Budget<Bucket> {
    Budgets.Budget((b, t) => Credit(cfg, Refilled(cfg, b, t), t), t => cfg.refillRate * cfg.capacity, cfg.refillRate, 1,
                   t => true, (b, t) => Ok(cfg, b, t))
  }

  lemma CreditSpent(cfg: Config, b: Bucket, op: Op, now: int)
    ensures Budgets.Charges(Tokens(cfg), Credits(cfg), b, op, now)
  {
    hide Refilled, Credit, AllowN, Remaining;
    if Ok(cfg, b, now) && op.Allow? && 0 < op.n {
      var c := AllowN(cfg, b, op.n, now).0;
      AllowSpends(cfg, b, op.n, now);
      RefillCredit(cfg, c, now);
    }
  }

  /** A bucket that is full now is full later; any other keeps its credit and adds the time. */
  lemma CreditEarned(cfg: Config, b: Bucket, now: int, elapsed: nat)
    requires Ok(cfg, b, now)
    ensures Credit(cfg, Refilled(cfg, b, now + elapsed), now + elapsed) <= Credit(cfg, Refilled(cfg, b, now),
            now) + elapsed
  {
    var later := now + elapsed;
    RefillCredit(cfg, b, later);
    var q, r := (now - b.last) / cfg.refillRate, (later - b.last) / cfg.refillRate;
    if q > 0 && b.tokens + q >= cfg.capacity {
      Quotient(now - b.last, cfg.refillRate);
      Quotient(later - b.last, cfg.refillRate);
      QuotientGrows(now - b.last, later - b.last, cfg.refillRate);
    } else {
      CreditKept(cfg, b, now);
    }
  }

  lemma QuotientGrows(x: int, y: int, rate: int)
    requires 0 < rate && 0 <= x <= y
    ensures x / rate <= y / rate
  {
    Quotient(x, rate);
    Quotient(y, rate);
    if y / rate < x / rate {
      Monotone(rate, y / rate + 1, x / rate);
    }
  }

  lemma CreditKept(cfg: Config, b: Bucket, now: int)
    requires Ok(cfg, b, now) && !((now - b.last) / cfg.refillRate > 0
                                  && b.tokens + (now - b.last) / cfg.refillRate >= cfg.capacity)
    ensures Credit(cfg, Refilled(cfg, b, now), now) == Credit(cfg, b, now)
  {
    var q := (now - b.last) / cfg.refillRate;
    assert cfg.refillRate * (b.tokens + q) == cfg.refillRate * b.tokens + cfg.refillRate * q;
  }

  lemma CreditReplaced(cfg: Config, b: Bucket, now: int)
    requires cfg.capacity * cfg.refillRate <= cfg.idleTimeout + 1
    ensures Budgets.Replaces(Tokens(cfg), Credits(cfg), b, now)
  {
    hide Refilled;
    RefilledFull(cfg, now);
    if Ok(cfg, b, now) && b.last < now - cfg.idleTimeout {
      RecoveredIsFull(cfg, b, now);
    }
  }

  lemma CreditsAreSound(cfg: Config)
    requires cfg.capacity * cfg.refillRate <= cfg.idleTimeout + 1
    ensures Budgets.Sound(Tokens(cfg), Credits(cfg))
  {
    hide Budgets.Charges, Budgets.Replaces, Refilled, Credit;
    KeepsOk(cfg);
    KeepsOkToo(cfg);
    forall b, op, now
      ensures Budgets.Charges(Tokens(cfg), Credits(cfg), b, op, now)
    {
      CreditSpent(cfg, b, op, now);
    }
    forall b, now, elapsed
      ensures Budgets.Earns(Credits(cfg), b, now, elapsed)
    {
      if Ok(cfg, b, now) {
        CreditEarned(cfg, b, now, elapsed);
      }
    }
    forall b, now
      ensures Budgets.Replaces(Tokens(cfg), Credits(cfg), b, now)
    {
      CreditReplaced(cfg, b, now);
    }
  }

  lemma KeepsOkToo(cfg: Config)
    requires Bounds.Keeps(Tokens(cfg), InRange(cfg))
    ensures Bounds.Keeps(Tokens(cfg), Credits(cfg).good)
  {
    forall b, op, now, later
      ensures Bounds.KeepsAt(Tokens(cfg), Credits(cfg).good, b, op, now, later)
    {
      assert Bounds.KeepsAt(Tokens(cfg), InRange(cfg), b, op, now, later);
    }
  }

  /** What the collecting limiter grants on `key` over a disciplined run from any reachable state obeys the bounds. */
  ghost predicate CollectingBounded(cfg: Config, sch: Schedule, clock: int, before: seq<Action<nat>>,
                                    after: seq<Action<nat>>, key: string)
  {
    var p := Tokens(cfg);
    var s := Run(p, true, Start<nat, Bucket>(clock), before);
    DisciplinedRun(p, sch, Start<nat, Bucket>(clock), before) && DisciplinedRun(p, sch, s, after)
    && Bounds.NoReset(before, key) && Bounds.NoReset(after, key) ==>
      Bounded(cfg, GrantedOn(cfg, true, s, after, key), key !in s.store.table, Run(p, true, s, after).clock - s.clock)
  }

  /** If collected buckets have had time to fill up, the bounds hold with collection too, on every schedule. */
  lemma CollectingRateBound(cfg: Config, sch: Schedule, clock: int, before: seq<Action<nat>>, after: seq<Action<nat>>,
                            key: string)
    requires cfg.capacity * cfg.refillRate <= cfg.idleTimeout + 1
    ensures CollectingBounded(cfg, sch, clock, before, after, key)
  {
    hide Run, DisciplinedRun, Budgets.Sound, Wf, Bounds.OneCell, Refilled, Bounded, Budgets.Funds, Bounds.GoodKey;
    var p, w, start := Tokens(cfg), Credits(cfg), Start<nat, Bucket>(clock);
    var s := Run(p, true, start, before);
    if DisciplinedRun(p, sch, start, before) && DisciplinedRun(p, sch, s, after)
       && Bounds.NoReset(before, key) && Bounds.NoReset(after, key) {
      CreditsAreSound(cfg);
      Bounds.StartOneCell<nat, Bucket>(clock, key);
      NothingFiled(cfg, clock, key);
      Budgets.GrantsArePaid(p, w, sch, start, before, key);
      Budgets.GrantsArePaid(p, w, sch, s, after, key);
      SameGrants(cfg, s, after, key);
      var t, a := Run(p, true, s, after), GrantedOn(cfg, true, s, after, key);
      FundsRange(cfg, s, key);
      FundsRange(cfg, t, key);
      Settle(cfg, a, Budgets.Funds(w, s, key), Budgets.Funds(w, t, key), t.clock - s.clock);
    }
  }

  lemma NothingFiled(cfg: Config, clock: int, key: string)
    ensures Bounds.GoodKey(Start<nat, Bucket>(clock), Credits(cfg).good, key)
  {
  }

  /** What is paid for is bounded. */
  lemma Settle(cfg: Config, granted: nat, funds: int, rest: int, elapsed: int)
    requires cfg.refillRate * granted + rest <= funds + elapsed && 0 <= rest
    ensures funds < cfg.refillRate * (cfg.capacity + 1) ==> Bounded(cfg, granted, false, elapsed)
    ensures funds == cfg.refillRate * cfg.capacity ==> Bounded(cfg, granted, true, elapsed)
  {
    Less(cfg.refillRate, granted, cfg.capacity);
    Less(cfg.refillRate, granted, cfg.capacity + 1);
  }

  /** Counting all the time is counting while the budget charges. */
  lemma {:induction false} SameGrants(cfg: Config, s: State<nat, Bucket>, actions: seq<Action<nat>>, key: string)
    ensures GrantedTo(Tokens(cfg), true, s, actions, key, Credits(cfg).when) == GrantedOn(cfg, true, s, actions, key)
    decreases |actions|
  {
    hide Step, Gain;
    if actions != [] {
      SameGrants(cfg, Step(Tokens(cfg), true, s, actions[0]).0, actions[1..], key);
    }
  }

  lemma FundsRange(cfg: Config, s: State<nat, Bucket>, key: string)
    requires KeyWf(s, key) && Bounds.GoodKey(s, Credits(cfg).good, key)
    ensures 0 <= Budgets.Funds(Credits(cfg), s, key) < cfg.refillRate * (cfg.capacity + 1)
    ensures key !in s.store.table ==> Budgets.Funds(Credits(cfg), s, key) == cfg.refillRate * cfg.capacity
  {
    hide Refilled;
    assert cfg.refillRate * (cfg.capacity + 1) == cfg.refillRate * cfg.capacity + cfg.refillRate;
    Monotone(cfg.refillRate, 0, cfg.capacity);
    if key in s.store.table {
      RefillCredit(cfg, CellOf(s, key), s.clock);
      Monotone(cfg.refillRate, 0, Refilled(cfg, CellOf(s, key), s.clock).tokens);
    }
  }

  ghost predicate AlwaysBounded(cfg: Config, sch: Schedule) {
    forall clock, before, after, key :: CollectingBounded(cfg, sch, clock, before, after, key)
  }

  /** The rate bounds survive collection, on any schedule, exactly when collected buckets have had time to fill up. */
  lemma RateBoundIff(cfg: Config, sch: Schedule)
    ensures AlwaysBounded(cfg, sch) <==> cfg.capacity * cfg.refillRate <= cfg.idleTimeout + 1
  {
    hide CollectingBounded;
    if cfg.capacity * cfg.refillRate <= cfg.idleTimeout + 1 {
      forall clock, before, after, key
        ensures CollectingBounded(cfg, sch, clock, before, after, key)
      {
        CollectingRateBound(cfg, sch, clock, before, after, key);
      }
    } else {
      var before, after := EarlyCollectionExceeds(cfg, sch, 0);
    }
  }

  /** A bucket that is collected and made again before it is full grants too much. */
  lemma EarlyCollectionExceeds(cfg: Config, sch: Schedule, start: int)
    returns (before: seq<Action<nat>>, after: seq<Action<nat>>)
    requires cfg.idleTimeout + 1 < cfg.capacity * cfg.refillRate
    ensures !CollectingBounded(cfg, sch, start, before, after, "a")
  {
    hide Run, DisciplinedRun, Refilled, GrantedTo;
    var p, wait, gap, n := Tokens(cfg), Wait(cfg), cfg.idleTimeout + 1, cfg.capacity;
    before, after := [Tick(wait)], Runs.Refill(gap, n);
    var s := Start<nat, Bucket>(start).(clock := start + wait);
    SpentIsEmpty(cfg, start + wait);
    SpentIsEmpty(cfg, start + wait + gap);
    Runs.RunOne(p, true, Start<nat, Bucket>(start), Tick(wait));
    Runs.OneDisciplined(p, sch, Start<nat, Bucket>(start), Tick(wait));
    Runs.RefillRuns(p, sch, start, start + wait, gap, n);
    Runs.RefillTotal(p, start, start + wait, gap, n);
    assert GrantedOn(cfg, true, s, after, "a") == 2 * n;
    assert cfg.refillRate * (2 * n - n) == cfg.capacity * cfg.refillRate;
  }

  // ----- the limiter object -----

  const FIVE_MINUTES := 300_000_000_000

  class TbBucket {
    var tokens: int
    var last: int

    constructor (tokens: int, last: int)
      ensures this.tokens == tokens && this.last == last
    {
      this.tokens, this.last := tokens, last;
    }
  }

  ghost function Contents(pool: set<TbBucket>): (m: map<TbBucket, Bucket>)
    reads pool
    ensures m.Keys == pool && forall b :: b in pool ==> m[b] == Bucket(b.tokens, b.last)
  {
    map b | b in pool :: Bucket(b.tokens, b.last)
  }

  /** Each method is one critical section, except the last three, which are whole calls with nobody in between. */
  class TokenBucketLimiter {
    const cfg: Config
    var buckets: map<string, TbBucket>
    var lastGC: int
    /** Every bucket there has been: callers may still hold those that are no longer in the map. */
    ghost var pool: set<TbBucket>

    ghost predicate Valid()
      reads this
    {
      forall k :: k in buckets ==> buckets[k] in pool
    }

    ghost function View(): Store<TbBucket, Bucket>
      reads this, pool
    {
      Store(buckets, Contents(pool), lastGC)
    }

    constructor (capacity: int, refillRate: int, now: int)
      ensures Valid() && View() == Store(map[], map[], now) && pool == {}
      ensures cfg.capacity == (if capacity <= 0 then 1 else capacity)
      ensures cfg.refillRate == (if refillRate <= 0 then 1_000_000_000 else refillRate)
      ensures cfg.gcInterval == cfg.idleTimeout == FIVE_MINUTES
    {
      cfg := Config(if capacity <= 0 then 1 else capacity, if refillRate <= 0 then 1_000_000_000 else refillRate,
                    FIVE_MINUTES, FIVE_MINUTES);
      buckets, pool := map[], {};
      lastGC := now;
    }

    /** Under the read lock. */
    method Find(key: string) returns (b: TbBucket?)
      requires Valid()
      ensures if key in View().table then b == View().table[key] else b == null
    {
      b := if key in buckets then buckets[key] else null;
    }

    method MaybeGC(now: int)
      requires Valid()
      modifies this`buckets, this`lastGC
      ensures Valid() && View() == Collect(Tokens(cfg), old(View()), now)
    {
      hide Collect;
      if now - lastGC < cfg.gcInterval {
        SameInterval(cfg, View(), now);
        return;
      }
      var cutoff, left := now - cfg.idleTimeout, buckets.Keys;
      while left != {}
        invariant left <= buckets.Keys <= old(buckets).Keys && lastGC == old(lastGC)
        invariant forall k :: k in buckets ==> buckets[k] == old(buckets)[k]
        invariant forall k :: k in buckets && k !in left ==> buckets[k].last >= cutoff
        invariant forall k :: k in old(buckets) && k !in buckets ==> old(buckets)[k].last < cutoff
        decreases left
      {
        var k :| k in left;
        if buckets[k].last < cutoff {
          buckets := buckets - {k};
        }
        left := left - {k};
      }
      lastGC := now;
      CollectedTable(cfg, old(View()), buckets, now);
    }

    /** Under the write lock. */
    method MakeBucket(key: string, now: int) returns (b: TbBucket)
      requires Valid()
      modifies this`buckets, this`lastGC, this`pool
      ensures Valid() && old(pool) <= pool && fresh(pool - old(pool)) && b in pool
      ensures (View(), b) == MakeCell(Tokens(cfg), true, old(View()), key, b, now)
      ensures key !in Collect(Tokens(cfg), old(View()), now).table ==> fresh(b) && b !in old(View()).cells
    {
      hide Collect, Tokens;
      MaybeGC(now);
      if key in buckets {
        return buckets[key];
      }
      ghost var before := View();
      b := new TbBucket(cfg.capacity, now);
      BlankIsFull(cfg, now);
      buckets, pool := buckets[key := b], pool + {b};
      assert Contents(pool) == before.cells[b := Full(cfg, now)];
    }

    /** Under the lock of the bucket, which need no longer be in the map. */
    method Spend(b: TbBucket, n: int, now: int) returns (ok: bool)
      requires Valid() && b in pool
      modifies b
      ensures (View(), Granted(ok)) == UseCell(Tokens(cfg), old(View()), b, Allow(n), now)
    {
      hide Serve, UseCell;
      ghost var before, was := View(), Bucket(b.tokens, b.last);
      var refill := if now >= b.last then (now - b.last) / cfg.refillRate else -((b.last - now) / cfg.refillRate);
      if refill > 0 {
        b.tokens := b.tokens + refill;
        if b.tokens >= cfg.capacity {
          b.tokens := cfg.capacity;
          b.last := now;
        } else {
          b.last := b.last + refill * cfg.refillRate;
        }
      }
      ok := b.tokens >= n;
      if ok {
        b.tokens := b.tokens - n;
      }
      SpendIsServe(cfg, was, n, now, Bucket(b.tokens, b.last), ok);
      UseIsServe(cfg, before, b, Allow(n), now);
      assert Contents(pool) == before.cells[b := Bucket(b.tokens, b.last)];
    }

    method Count(b: TbBucket, now: int) returns (n: int)
      requires Valid() && b in pool
      ensures (View(), Left(n)) == UseCell(Tokens(cfg), View(), b, Read, now)
    {
      var refill := if now >= b.last then (now - b.last) / cfg.refillRate else -((b.last - now) / cfg.refillRate);
      n := b.tokens + refill;
      if n > cfg.capacity {
        n := cfg.capacity;
      }
      assert View().cells[b := View().cells[b]] == View().cells;
    }

    method GetBucket(key: string, now: int) returns (b: TbBucket)
      requires Valid()
      modifies this`buckets, this`lastGC, this`pool
      ensures Valid() && old(pool) <= pool && fresh(pool - old(pool)) && b in pool
      ensures (View(), b) == if key in old(View()).table then (old(View()), old(View()).table[key])
                             else MakeCell(Tokens(cfg), true, old(View()), key, b, now)
    {
      var found := Find(key);
      if found != null {
        return found;
      }
      b := MakeBucket(key, now);
    }

    method AllowEvents(key: string, n: int, now: int) returns (ok: bool)
      requires Valid()
      modifies this, pool
      ensures Valid()
      ensures n <= 0 ==> ok && View() == old(View())
      ensures 0 < n ==> exists b :: b in pool
                                    && (View(), Granted(ok)) ==
                                       WholeCall(Tokens(cfg), true, old(View()), key, Allow(n), b, now)
    {
      hide MakeCell, UseCell;
      if n <= 0 {
        return true;
      }
      var b := GetBucket(key, now);
      ok := Spend(b, n, now);
    }

    method RemainingEvents(key: string, now: int) returns (n: int)
      requires Valid()
      modifies this`buckets, this`lastGC, this`pool
      ensures Valid()
      ensures exists b :: b in pool && (View(), Left(n)) == WholeCall(Tokens(cfg), true, old(View()), key, Read, b, now)
    {
      hide MakeCell, UseCell;
      var b := GetBucket(key, now);
      n := Count(b, now);
    }

    method ResetKey(key: string)
      requires Valid()
      modifies this`buckets
      ensures Valid() && View() == DropKey(old(View()), key)
    {
      buckets := buckets - {key};
    }
  }

  /** What Spend computes is what AllowN of the model gives. */
  lemma SpendIsServe(cfg: Config, b: Bucket, n: int, now: int, c: Bucket, ok: bool)
    requires var r := Refilled(cfg, b, now);
             ok == (r.tokens >= n) && c == if ok then r.(tokens := r.tokens - n) else r
    ensures Serve(cfg, b, Allow(n), now) == (c, Granted(ok))
  {
  }

  lemma UseIsServe(cfg: Config, s: Store<TbBucket, Bucket>, b: TbBucket, op: Op, now: int)
    requires b in s.cells
    ensures var (c, answer) := Serve(cfg, s.cells[b], op, now);
            UseCell(Tokens(cfg), s, b, op, now) == (s.(cells := s.cells[b := c]), answer)
  {
  }

  lemma SameInterval(cfg: Config, s: Store<TbBucket, Bucket>, now: int)
    requires now - s.lastGC < cfg.gcInterval
    ensures Collect(Tokens(cfg), s, now) == s
  {
  }

  /** Dropping exactly the idle buckets is collecting. */
  lemma CollectedTable(cfg: Config, s: Store<TbBucket, Bucket>, table: map<string, TbBucket>, now: int)
    requires now - s.lastGC >= cfg.gcInterval && table.Keys <= s.table.Keys
    requires forall k :: k in s.table ==> s.table[k] in s.cells
    requires forall k :: k in table ==> table[k] == s.table[k] && s.cells[s.table[k]].last >= now - cfg.idleTimeout
    requires forall k :: k in s.table && k !in table ==> s.cells[s.table[k]].last < now - cfg.idleTimeout
    ensures Store(table, s.cells, now) == Collect(Tokens(cfg), s, now)
  {
    var c := Collect(Tokens(cfg), s, now);
    forall k | k in s.table
      ensures k in table <==> k in c.table
    {
      assert Stale(Tokens(cfg), s, k, now) <==> s.cells[s.table[k]].last < now - cfg.idleTimeout;
    }
    assert table == c.table;
  }

  lemma BlankIsFull(cfg: Config, now: int)
    ensures Tokens(cfg).blank(now) == Full(cfg, now)
  {
  }
}
