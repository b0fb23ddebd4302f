/**
 The PostgreSQL idempotency store as a protocol: any number of replicas interleave the single SQL
 statements of Lock, Save, Unlock and Delete. A call samples its clock when it starts, so the sample may
 be stale by the time a statement runs.
 */
module Lease {

  datatype Response = Response(statusCode: int, headers: map<string, seq<string>>, body: seq<bv8>)

  datatype Status = InProgress | Completed(response: Response)

  /** A table row; status_code, headers and body are NULL exactly while the status is in progress. */
  datatype Row = Row(status: Status, lockedUntil: int, expiresAt: int)

  /** Where a client stands in its current call, with the values it carries. */
  datatype Client =
    | Idle
    | Inserting(key: string, now: int)
    | Reading(key: string, now: int)
    | ReclaimingExpired(key: string, now: int, seen: Row)
    | ReclaimingLease(key: string, now: int, seen: Row)
    | Answered(key: string, record: Status)
    | Failed
    | Holding(key: string, until: int)
    | Saving(key: string, until: int, now: int, response: Response)

  datatype State = State(clock: int, table: map<string, Row>, clients: map<nat, Client>)

  datatype Config = Config(lockTTL: int, responseTTL: int)

  /** How a statement ends: applied, refused, or applied with the reply lost on the way back. */
  datatype Fate = Done | Refused | ReplyLost

  datatype Action =
    | Tick(elapsed: nat)
    | BeginLock(c: nat, key: string)
    | ExecInsert(c: nat, fate: Fate)
    | ExecRead(c: nat, fate: Fate)
    | ExecReclaim(c: nat, fate: Fate)
    | BeginSave(c: nat, response: Response)
    | ExecSave(c: nat, fate: Fate)
    | ExecUnlock(c: nat, fate: Fate)
    | ExecDelete(key: string)
    | Abandon(c: nat)

  function At(s: State, c: nat): Client {
    if c in s.clients then s.clients[c] else Idle
  }

  function Put(s: State, c: nat, p: Client): State {
    s.(clients := s.clients[c := p])
  }

  function FreshRow(cfg: Config, now: int): Row {
    Row(InProgress, now + cfg.lockTTL, now + cfg.responseTTL)
  }

  function Lease(cfg: Config, key: string, now: int): Client {
    Holding(key, now + cfg.lockTTL)
  }

  /** The second test of tryReclaimExpired, on the row as it was read. */
  function AfterExpiryCheck(key: string, now: int, seen: Row): Client {
    if seen.status.InProgress? && now > seen.lockedUntil then ReclaimingLease(key, now, seen)
    else Answered(key, seen.status)
  }

  function AfterRead(key: string, now: int, seen: Row): Client {
    if now > seen.expiresAt then ReclaimingExpired(key, now, seen) else AfterExpiryCheck(key, now, seen)
  }

  /** INSERT ... ON CONFLICT DO NOTHING. */
  function Insert(cfg: Config, s: State, c: nat, key: string, now: int, fate: Fate): State {
    if fate.Refused? then Put(s, c, Failed)
    else
      var won := key !in s.table;
      var t := if won then s.(table := s.table[key := FreshRow(cfg, now)]) else s;
      Put(t, c, if fate.ReplyLost? then Failed else if won then Lease(cfg, key, now) else Reading(key, now))
  }

  /** SELECT; a missing row restarts Lock with a fresh clock sample. */
  function Read(s: State, c: nat, key: string, now: int, fate: Fate): State {
    if !fate.Done? then Put(s, c, Failed)
    else if key !in s.table then Put(s, c, Inserting(key, s.clock))
    else Put(s, c, AfterRead(key, now, s.table[key]))
  }

  /** UPDATE ... WHERE expires_at is still what was read. */
  function ReclaimExpired(cfg: Config, s: State, c: nat, key: string, now: int, seen: Row, fate: Fate): State {
    var hit := !fate.Refused? && key in s.table && s.table[key].expiresAt == seen.expiresAt;
    var t := if hit then s.(table := s.table[key := FreshRow(cfg, now)]) else s;
    Put(t, c, if hit && fate.Done? then Lease(cfg, key, now) else AfterExpiryCheck(key, now, seen))
  }

  /** UPDATE ... WHERE still in progress and locked_until is still what was read. */
  function ReclaimLease(cfg: Config, s: State, c: nat, key: string, now: int, seen: Row, fate: Fate): State {
    var hit := !fate.Refused? && key in s.table && s.table[key].status.InProgress?
               && s.table[key].lockedUntil == seen.lockedUntil;
    var t := if hit then s.(table := s.table[key := FreshRow(cfg, now)]) else s;
    Put(t, c, if hit && fate.Done? then Lease(cfg, key, now) else Answered(key, seen.status))
  }

  /** UPDATE ... WHERE key: no test of who holds the row or of its status. */
  function Save(cfg: Config, s: State, c: nat, key: string, now: int, response: Response, fate: Fate): State {
    var t := if !fate.Refused? && key in s.table then
               s.(table := s.table[key :=
                    s.table[key].(status := Completed(response), expiresAt := now + cfg.responseTTL)])
             else s;
    Put(t, c, Idle)
  }

  /** DELETE ... WHERE still in progress. */
  function Unlock(s: State, c: nat, key: string, fate: Fate): State {
    var t := if !fate.Refused? && key in s.table && s.table[key].status.InProgress? then
               s.(table := s.table - {key})
             else s;
    Put(t, c, Idle)
  }

  /** One atomic step; an action that does not fit the client's position changes nothing. */
  function Apply(cfg: Config, s: State, a: Action): State {
    match a
    case Tick(elapsed) => s.(clock := s.clock + elapsed)
    case BeginLock(c, key) =>
      if At(s, c).Idle? || At(s, c).Answered? || At(s, c).Failed? then
        Put(s, c, if key == "" then Failed else Inserting(key, s.clock))
      else s
    case ExecInsert(c, fate) =>
      (match At(s, c)
       case Inserting(key, now) => Insert(cfg, s, c, key, now, fate)
       case _ => s)
    case ExecRead(c, fate) =>
      (match At(s, c)
       case Reading(key, now) => Read(s, c, key, now, fate)
       case _ => s)
    case ExecReclaim(c, fate) =>
      (match At(s, c)
       case ReclaimingExpired(key, now, seen) => ReclaimExpired(cfg, s, c, key, now, seen, fate)
       case ReclaimingLease(key, now, seen) => ReclaimLease(cfg, s, c, key, now, seen, fate)
       case _ => s)
    case BeginSave(c, response) =>
      (match At(s, c)
       case Holding(key, until) => Put(s, c, Saving(key, until, s.clock, response))
       case _ => s)
    case ExecSave(c, fate) =>
      (match At(s, c)
       case Saving(key, until, now, response) => Save(cfg, s, c, key, now, response, fate)
       case _ => s)
    case ExecUnlock(c, fate) =>
      (match At(s, c)
       case Holding(key, until) => Unlock(s, c, key, fate)
       case _ => s)
    case ExecDelete(key) => s.(table := s.table - {key})
    case Abandon(c) => Put(s, c, Idle)
  }

  function Run(cfg: Config, s: State, actions: seq<Action>): State
    decreases |actions|
  {
    if actions == [] then s else Run(cfg, Apply(cfg, s, actions[0]), actions[1..])
  }

  function Start(clock: int): State {
    State(clock, map[], map[])
  }

  predicate Holds(p: Client, key: string) {
    (p.Holding? || p.Saving?) && p.key == key
  }

  /** `c` holds `key` and its lease has not ended. */
  predicate Live(s: State, c: nat, key: string) {
    Holds(At(s, c), key) && s.clock <= At(s, c).until
  }

  /** The assumption on callers: Save and Unlock take effect within the caller's own lease, and nobody deletes. */
  predicate Disciplined(s: State, a: Action) {
    match a
    case ExecSave(c, _) => At(s, c).Saving? ==> s.clock <= At(s, c).until
    case ExecUnlock(c, _) => At(s, c).Holding? ==> s.clock <= At(s, c).until
    case ExecDelete(_) => false
    case _ => true
  }

  predicate DisciplinedRun(cfg: Config, s: State, actions: seq<Action>)
    decreases |actions|
  {
    actions == [] ||
    (Disciplined(s, actions[0]) && DisciplinedRun(cfg, Apply(cfg, s, actions[0]), actions[1..]))
  }

  ghost predicate Exclusive(s: State) {
    forall c, d, key :: Live(s, c, key) && Live(s, d, key) ==> c == d
  }

  // ----- the invariant -----

  /** Clock samples are not from the future, reclaims were justified when decided, and live leases are on file. */
  ghost predicate ClientOk(s: State, p: Client) {
    match p
    case Inserting(_, now) => now <= s.clock
    case Reading(_, now) => now <= s.clock
    case ReclaimingExpired(_, now, seen) => seen.expiresAt < now <= s.clock
    case ReclaimingLease(_, now, seen) => seen.lockedUntil < now <= s.clock
    case Holding(key, until) => s.clock <= until ==> OnFile(s, key, until)
    case Saving(key, until, now, _) => now <= s.clock && (s.clock <= until ==> OnFile(s, key, until))
    case _ => true
  }

  ghost predicate OnFile(s: State, key: string, until: int) {
    && key in s.table
    && s.table[key].status.InProgress? && s.table[key].lockedUntil == until && until <= s.table[key].expiresAt
  }

  ghost predicate Inv(s: State) {
    (forall c :: ClientOk(s, At(s, c))) && Exclusive(s)
  }

  /** Nobody but perhaps `c` holds a live lease on `key`. */
  ghost predicate FreeFor(s: State, c: nat, key: string) {
    forall d :: d != c ==> !Live(s, d, key)
  }

  ghost predicate SameRow(s: State, t: State, key: string) {
    (key in s.table <==> key in t.table) && (key in s.table ==> s.table[key] == t.table[key])
  }

  /** `t` differs from `s` in the position of `c` and in the row of `key` only. */
  ghost predicate Touches(s: State, t: State, c: nat, key: string) {
    && t.clock == s.clock
    && (forall d: nat :: d != c ==> At(t, d) == At(s, d))
    && (forall k :: k != key ==> SameRow(s, t, k))
  }

  /** A step that takes or changes the row of a key is safe when no other client is live on that key. */
  lemma UpdateInv(s: State, t: State, c: nat, key: string)
    requires Inv(s) && Touches(s, t, c, key)
    requires FreeFor(s, c, key) || (SameRow(s, t, key) && forall k :: !Live(t, c, k))
    requires ClientOk(t, At(t, c)) && forall k :: k != key ==> !Live(t, c, k)
    ensures Inv(t)
  {
    assert forall d: nat, k :: d != c ==> (Live(t, d, k) <==> Live(s, d, k));
    forall d: nat
      ensures ClientOk(t, At(t, d))
    {
      if d != c {
        var p := At(s, d);
        assert ClientOk(s, p);
        if (p.Holding? || p.Saving?) && s.clock <= p.until {
          assert Live(s, d, p.key);
          assert SameRow(s, t, p.key);
        }
      }
    }
    forall d: nat, e: nat, k | Live(t, d, k) && Live(t, e, k)
      ensures d == e
    {
      assert d != c ==> Live(s, d, k);
      assert e != c ==> Live(s, e, k);
    }
  }

  /** Four situations in which no live lease on `key` can exist. */
  lemma NobodyLive(s: State, key: string)
    requires Inv(s)
    requires key in s.table ==>
               s.table[key].status.Completed? || s.table[key].expiresAt < s.clock || s.table[key].lockedUntil < s.clock
    ensures forall c :: !Live(s, c, key)
  {
    assert forall c :: ClientOk(s, At(s, c));
  }

  lemma LiveIsAlone(s: State, c: nat, key: string)
    requires Inv(s) && Live(s, c, key)
    ensures FreeFor(s, c, key)
  {
  }

  /** Every step of a disciplined run keeps the invariant, provided a lease never outlasts the row it is filed in. */
  lemma StepInv(cfg: Config, s: State, a: Action)
    requires Inv(s) && Disciplined(s, a) && cfg.lockTTL <= cfg.responseTTL
    ensures Inv(Apply(cfg, s, a))
  {
    hide Inv, ClientOk, Exclusive;
    var t := Apply(cfg, s, a);
    match a
    case Tick(elapsed) => TickInv(s, elapsed);
    case BeginLock(c, key) => QuietInv(s, t, c);
    case ExecInsert(c, fate) => InsertInv(cfg, s, c, fate);
    case ExecRead(c, fate) => ReadInv(cfg, s, c, fate);
    case ExecReclaim(c, fate) => ReclaimInv(cfg, s, c, fate);
    case BeginSave(c, response) => BeginSaveInv(cfg, s, c, response);
    case ExecSave(c, fate) => SaveInv(cfg, s, c, fate);
    case ExecUnlock(c, fate) => UnlockInv(cfg, s, c, fate);
    case Abandon(c) => QuietInv(s, t, c);
  }

  lemma TickInv(s: State, elapsed: nat)
    requires Inv(s)
    ensures Inv(s.(clock := s.clock + elapsed))
  {
    var t := s.(clock := s.clock + elapsed);
    assert forall c, key :: Live(t, c, key) ==> Live(s, c, key);
    forall c: nat
      ensures ClientOk(t, At(t, c))
    {
      assert ClientOk(s, At(s, c));
    }
  }

  /** Moving a client to a position that holds nothing, with the table untouched. */
  lemma QuietInv(s: State, t: State, c: nat)
    requires Inv(s) && (t == s || t == Put(s, c, At(t, c)))
    requires var p := At(t, c); t != s ==> ClientOk(t, p) && !p.Holding? && !p.Saving?
    ensures Inv(t)
  {
    if t != s {
      UpdateInv(s, t, c, "");
    }
  }

  lemma InsertInv(cfg: Config, s: State, c: nat, fate: Fate)
    requires Inv(s) && cfg.lockTTL <= cfg.responseTTL
    ensures Inv(Apply(cfg, s, ExecInsert(c, fate)))
  {
    var t := Apply(cfg, s, ExecInsert(c, fate));
    if At(s, c).Inserting? {
      var key := At(s, c).key;
      assert ClientOk(s, At(s, c));
      if key !in s.table {
        NobodyLive(s, key);
      }
      UpdateInv(s, t, c, key);
    }
  }

  lemma ReadInv(cfg: Config, s: State, c: nat, fate: Fate)
    requires Inv(s)
    ensures Inv(Apply(cfg, s, ExecRead(c, fate)))
  {
    assert ClientOk(s, At(s, c));
    QuietInv(s, Apply(cfg, s, ExecRead(c, fate)), c);
  }

  /** The compare-and-swap succeeds only on a row that is expired now, whoever wrote it meanwhile. */
  lemma ReclaimInv(cfg: Config, s: State, c: nat, fate: Fate)
    requires Inv(s) && cfg.lockTTL <= cfg.responseTTL
    ensures Inv(Apply(cfg, s, ExecReclaim(c, fate)))
  {
    var t, p := Apply(cfg, s, ExecReclaim(c, fate)), At(s, c);
    if p.ReclaimingExpired? || p.ReclaimingLease? {
      assert ClientOk(s, p);
      if t.table != s.table {
        NobodyLive(s, p.key);
      }
      UpdateInv(s, t, c, p.key);
    }
  }

  lemma BeginSaveInv(cfg: Config, s: State, c: nat, response: Response)
    requires Inv(s)
    ensures Inv(Apply(cfg, s, BeginSave(c, response)))
  {
    var t, p := Apply(cfg, s, BeginSave(c, response)), At(s, c);
    if p.Holding? {
      assert ClientOk(s, p);
      if Live(s, c, p.key) {
        LiveIsAlone(s, c, p.key);
      }
      UpdateInv(s, t, c, p.key);
    }
  }

  lemma SaveInv(cfg: Config, s: State, c: nat, fate: Fate)
    requires Inv(s) && Disciplined(s, ExecSave(c, fate))
    ensures Inv(Apply(cfg, s, ExecSave(c, fate)))
  {
    var t, p := Apply(cfg, s, ExecSave(c, fate)), At(s, c);
    if p.Saving? {
      LiveIsAlone(s, c, p.key);
      UpdateInv(s, t, c, p.key);
    }
  }

  lemma UnlockInv(cfg: Config, s: State, c: nat, fate: Fate)
    requires Inv(s) && Disciplined(s, ExecUnlock(c, fate))
    ensures Inv(Apply(cfg, s, ExecUnlock(c, fate)))
  {
    var t, p := Apply(cfg, s, ExecUnlock(c, fate)), At(s, c);
    if p.Holding? {
      LiveIsAlone(s, c, p.key);
      UpdateInv(s, t, c, p.key);
    }
  }

  lemma {:induction false} RunInv(cfg: Config, s: State, actions: seq<Action>)
    requires Inv(s) && DisciplinedRun(cfg, s, actions) && cfg.lockTTL <= cfg.responseTTL
    ensures Inv(Run(cfg, s, actions))
    decreases |actions|
  {
    hide Inv, Apply, Disciplined;
    if actions != [] {
      StepInv(cfg, s, actions[0]);
      RunInv(cfg, Apply(cfg, s, actions[0]), actions[1..]);
    }
  }

  // ----- exclusion -----

  ghost predicate AlwaysExclusive(cfg: Config, clock: int) {
    forall actions :: DisciplinedRun(cfg, Start(clock), actions) ==> Exclusive(Run(cfg, Start(clock), actions))
  }

  /**
   In every disciplined run at most one client holds an unexpired lease on a key: exactly when lockTTL <= responseTTL.
   */
  lemma ExclusionIffLeaseFitsRow(cfg: Config, clock: int)
    requires 0 < cfg.lockTTL && 0 < cfg.responseTTL
    ensures AlwaysExclusive(cfg, clock) <==> cfg.lockTTL <= cfg.responseTTL
  {
    if cfg.lockTTL <= cfg.responseTTL {
      forall actions | DisciplinedRun(cfg, Start(clock), actions)
        ensures Exclusive(Run(cfg, Start(clock), actions))
      {
        RunInv(cfg, Start(clock), actions);
      }
    } else {
      var actions := LongLeaseRun(cfg, clock);
    }
  }

  /** `states` are the successive states of the run of `actions`. */
  ghost predicate Traces(cfg: Config, states: seq<State>, actions: seq<Action>) {
    |states| == |actions| + 1 && forall i :: 0 <= i < |actions| ==> states[i + 1] == Apply(cfg, states[i], actions[i])
  }

  lemma {:induction false} RunTraced(cfg: Config, states: seq<State>, actions: seq<Action>)
    requires Traces(cfg, states, actions)
    ensures Run(cfg, states[0], actions) == states[|actions|]
    ensures (forall i :: 0 <= i < |actions| ==> Disciplined(states[i], actions[i])) ==>
              DisciplinedRun(cfg, states[0], actions)
    decreases |actions|
  {
    hide Apply, Disciplined;
    if actions != [] {
      RunTraced(cfg, states[1..], actions[1..]);
      assert states[1..][0] == states[1] == Apply(cfg, states[0], actions[0]);
    }
  }

  /** With a lease longer than the row's retention, a second client reclaims the row under a live lease. */
  lemma LongLeaseRun(cfg: Config, clock: int) returns (actions: seq<Action>)
    requires 0 < cfg.responseTTL < cfg.lockTTL
    ensures DisciplinedRun(cfg, Start(clock), actions) && !Exclusive(Run(cfg, Start(clock), actions))
  {
    hide Run, DisciplinedRun;
    var k, row := "k", FreshRow(cfg, clock);
    var late := clock + cfg.responseTTL + 1;
    actions := [BeginLock(0, k), ExecInsert(0, Done), Tick(cfg.responseTTL + 1),
                BeginLock(1, k), ExecInsert(1, Done), ExecRead(1, Done), ExecReclaim(1, Done)];
    var held := Lease(cfg, k, clock);
    var s2 := State(clock, map[k := row], map[0 := held]);
    var s7 := State(late, map[k := FreshRow(cfg, late)], map[0 := held, 1 := Lease(cfg, k, late)]);
    var states := [
      Start(clock),
      State(clock, map[], map[0 := Inserting(k, clock)]),
      s2,
      s2.(clock := late),
      State(late, map[k := row], map[0 := held, 1 := Inserting(k, late)]),
      State(late, map[k := row], map[0 := held, 1 := Reading(k, late)]),
      State(late, map[k := row], map[0 := held, 1 := ReclaimingExpired(k, late, row)]),
      s7];
    RunTraced(cfg, states, actions);
    assert Live(s7, 0, k) && Live(s7, 1, k);
  }

  /** Step `i` and no other breaks the discipline. */
  predicate OneLapse(cfg: Config, s: State, actions: seq<Action>, i: nat)
    decreases |actions|
  {
    i < |actions| &&
    var t := Apply(cfg, s, actions[0]);
    if i == 0 then !Disciplined(s, actions[0]) && DisciplinedRun(cfg, t, actions[1..])
    else Disciplined(s, actions[0]) && OneLapse(cfg, t, actions[1..], i - 1)
  }

  lemma {:induction false} LapseTraced(cfg: Config, states: seq<State>, actions: seq<Action>, i: nat)
    requires Traces(cfg, states, actions) && i < |actions| && !Disciplined(states[i], actions[i])
    requires forall j :: 0 <= j < |actions| && j != i ==> Disciplined(states[j], actions[j])
    ensures OneLapse(cfg, states[0], actions, i)
    decreases |actions|
  {
    hide Apply, Disciplined;
    assert states[1..][0] == states[1] == Apply(cfg, states[0], actions[0]);
    if i == 0 {
      RunTraced(cfg, states[1..], actions[1..]);
    } else {
      LapseTraced(cfg, states[1..], actions[1..], i - 1);
    }
  }

  ghost function LateActions(cfg: Config): seq<Action>
    requires 0 < cfg.lockTTL
  {
    [BeginLock(0, "k"), ExecInsert(0, Done), Tick(cfg.lockTTL + 1), BeginLock(1, "k"), ExecInsert(1, Done),
     ExecRead(1, Done), ExecReclaim(1, Done), ExecUnlock(0, Done), BeginLock(2, "k"), ExecInsert(2, Done)]
  }

  ghost function LateStates(cfg: Config, clock: int): seq<State> {
    var k, late := "k", clock + cfg.lockTTL + 1;
    var row, row' := FreshRow(cfg, clock), FreshRow(cfg, late);
    var held, held' := Lease(cfg, k, clock), Lease(cfg, k, late);
    [Start(clock),
     State(clock, map[], map[0 := Inserting(k, clock)]),
     State(clock, map[k := row], map[0 := held]),
     State(late, map[k := row], map[0 := held]),
     State(late, map[k := row], map[0 := held, 1 := Inserting(k, late)]),
     State(late, map[k := row], map[0 := held, 1 := Reading(k, late)]),
     State(late, map[k := row], map[0 := held, 1 := AfterRead(k, late, row)]),
     State(late, map[k := row'], map[0 := held, 1 := held']),
     State(late, map[], map[0 := Idle, 1 := held']),
     State(late, map[], map[0 := Idle, 1 := held', 2 := Inserting(k, late)]),
     State(late, map[k := row'], map[0 := Idle, 1 := held', 2 := held'])]
  }

  lemma LateHolder(cfg: Config, clock: int, i: nat)
    requires 0 < cfg.lockTTL && i < 5
    ensures LateStates(cfg, clock)[i + 1] == Apply(cfg, LateStates(cfg, clock)[i], LateActions(cfg)[i])
  {
  }

  lemma LateReclaim(cfg: Config, clock: int, i: nat)
    requires 0 < cfg.lockTTL <= cfg.responseTTL && 5 <= i < 8
    ensures LateStates(cfg, clock)[i + 1] == Apply(cfg, LateStates(cfg, clock)[i], LateActions(cfg)[i])
  {
  }

  lemma LateThird(cfg: Config, clock: int, i: nat)
    requires 0 < cfg.lockTTL && 8 <= i < 10
    ensures LateStates(cfg, clock)[i + 1] == Apply(cfg, LateStates(cfg, clock)[i], LateActions(cfg)[i])
  {
  }

  /**
   The discipline is needed: whatever the durations, an Unlock after the caller's own lease frees a row that another
   client has reclaimed, and a third client then joins the second.
   */
  lemma LateUnlockBreaksExclusion(cfg: Config, clock: int) returns (actions: seq<Action>, i: nat)
    requires 0 < cfg.lockTTL <= cfg.responseTTL
    ensures OneLapse(cfg, Start(clock), actions, i) && actions[i].ExecUnlock?
    ensures !Exclusive(Run(cfg, Start(clock), actions))
  {
    hide Run, DisciplinedRun, OneLapse, Apply;
    var states := LateStates(cfg, clock);
    actions, i := LateActions(cfg), 7;
    forall j | 0 <= j < 10
      ensures states[j + 1] == Apply(cfg, states[j], actions[j])
    {
      if j < 5 {
        LateHolder(cfg, clock, j);
      } else if j < 8 {
        LateReclaim(cfg, clock, j);
      } else {
        LateThird(cfg, clock, j);
      }
    }
    RunTraced(cfg, states, actions);
    LapseTraced(cfg, states, actions, i);
    assert Live(states[10], 1, "k") && Live(states[10], 2, "k");
  }

  // ----- replay of a saved response -----

  predicate Saved(s: State, key: string, response: Response, until: int) {
    key in s.table && s.table[key].status == Completed(response) && s.table[key].expiresAt == until
  }

  /** The step grants `key` to nobody, and a read of `key` in this step answers with `response`. */
  ghost predicate Replays(cfg: Config, s: State, a: Action, key: string, response: Response) {
    var t := Apply(cfg, s, a);
    && (forall c: nat :: Holds(At(t, c), key) ==> Holds(At(s, c), key))
    && (a.ExecRead? && a.fate.Done? && At(s, a.c).Reading? && At(s, a.c).key == key ==>
          At(t, a.c) == Answered(key, Completed(response)))
  }

  ghost predicate ReplaysThroughout(cfg: Config, s: State, actions: seq<Action>, key: string, response: Response)
    decreases |actions|
  {
    actions == [] ||
    (Replays(cfg, s, actions[0], key, response)
     && ReplaysThroughout(cfg, Apply(cfg, s, actions[0]), actions[1..], key, response))
  }

  /** Reclaims decided on an older reading included: until its retention ends, a saved row admits nobody. */
  lemma SavedStep(cfg: Config, s: State, a: Action, key: string, response: Response, until: int)
    requires Inv(s) && Disciplined(s, a) && Saved(s, key, response, until)
    requires Apply(cfg, s, a).clock <= until
    ensures Saved(Apply(cfg, s, a), key, response, until) && Replays(cfg, s, a, key, response)
  {
    NobodyLive(s, key);
    match a
    case Tick(_) =>
    case ExecDelete(_) =>
    case _ =>
      assert ClientOk(s, At(s, a.c));
      assert !Live(s, a.c, key);
  }

  lemma {:induction false} ClockAdvances(cfg: Config, s: State, actions: seq<Action>)
    ensures s.clock <= Run(cfg, s, actions).clock
    decreases |actions|
  {
    if actions != [] {
      ClockAdvances(cfg, Apply(cfg, s, actions[0]), actions[1..]);
    }
  }

  lemma {:induction false} SavedRun(cfg: Config, s: State, actions: seq<Action>, key: string, response: Response,
                                    until: int)
    requires Inv(s) && DisciplinedRun(cfg, s, actions) && cfg.lockTTL <= cfg.responseTTL
    requires Saved(s, key, response, until) && Run(cfg, s, actions).clock <= until
    ensures Saved(Run(cfg, s, actions), key, response, until) && ReplaysThroughout(cfg, s, actions, key, response)
    decreases |actions|
  {
    hide Inv, Apply, Disciplined, Saved, Replays;
    if actions != [] {
      var t := Apply(cfg, s, actions[0]);
      ClockAdvances(cfg, t, actions[1..]);
      SavedStep(cfg, s, actions[0], key, response, until);
      StepInv(cfg, s, actions[0]);
      SavedRun(cfg, t, actions[1..], key, response, until);
    }
  }

  /**
   After a Save takes effect, no Lock is granted and every read replays it, until the Save's clock sample plus
   responseTTL.
   */
  lemma SavedResponseIsReplayed(cfg: Config, clock: int, before: seq<Action>, c: nat, fate: Fate, after: seq<Action>)
    requires cfg.lockTTL <= cfg.responseTTL && !fate.Refused?
    requires DisciplinedRun(cfg, Start(clock), before)
    requires var s := Run(cfg, Start(clock), before);
             && At(s, c).Saving? && Disciplined(s, ExecSave(c, fate))
             && DisciplinedRun(cfg, Apply(cfg, s, ExecSave(c, fate)), after)
             && Run(cfg, Apply(cfg, s, ExecSave(c, fate)), after).clock <= At(s, c).now + cfg.responseTTL
    ensures var s := Run(cfg, Start(clock), before);
            var t, p := Apply(cfg, s, ExecSave(c, fate)), At(s, c);
            && ReplaysThroughout(cfg, t, after, p.key, p.response)
            && Saved(Run(cfg, t, after), p.key, p.response, p.now + cfg.responseTTL)
  {
    hide Run, DisciplinedRun, ReplaysThroughout;
    RunInv(cfg, Start(clock), before);
    var s := Run(cfg, Start(clock), before);
    var t, p := Apply(cfg, s, ExecSave(c, fate)), At(s, c);
    assert ClientOk(s, p);
    SaveInv(cfg, s, c, fate);
    SavedRun(cfg, t, after, p.key, p.response, p.now + cfg.responseTTL);
  }

  // ----- what a Lock is told -----

  /** A caller that reads the row of a key on which another holds a live lease is told that it is in progress. */
  lemma LiveIsReported(cfg: Config, clock: int, actions: seq<Action>, c: nat, d: nat, key: string)
    requires cfg.lockTTL <= cfg.responseTTL && DisciplinedRun(cfg, Start(clock), actions)
    requires var s := Run(cfg, Start(clock), actions);
             At(s, c).Reading? && At(s, c).key == key && Live(s, d, key)
    ensures var s := Run(cfg, Start(clock), actions);
            At(Apply(cfg, s, ExecRead(c, Done)), c) == Answered(key, InProgress)
  {
    hide Run, DisciplinedRun;
    RunInv(cfg, Start(clock), actions);
    var s := Run(cfg, Start(clock), actions);
    assert ClientOk(s, At(s, c)) && ClientOk(s, At(s, d));
  }

  /** What a caller knows of the row when it is answered or is about to reclaim it. */
  ghost predicate Knows(x: Client, key: string, row: Row) {
    || x == Answered(key, row.status)
    || ((x.ReclaimingExpired? || x.ReclaimingLease?) && x.key == key && x.seen == row)
  }

  /** Reading brings the row as it is, or a second try if it is gone. */
  lemma ReadIsFaithful(cfg: Config, s: State, c: nat)
    requires At(s, c).Reading?
    ensures var key, x := At(s, c).key, At(Apply(cfg, s, ExecRead(c, Done)), c);
            if key in s.table then Knows(x, key, s.table[key]) else x == Inserting(key, s.clock)
  {
  }

  /** A reclaim that does not win ends in an answer that is the status of the row that was read. */
  lemma ReclaimIsFaithful(cfg: Config, s: State, c: nat, fate: Fate)
    requires At(s, c).ReclaimingExpired? || At(s, c).ReclaimingLease?
    ensures var key, seen := At(s, c).key, At(s, c).seen;
            var x := At(Apply(cfg, s, ExecReclaim(c, fate)), c);
            Holds(x, key) || Knows(x, key, seen)
  {
  }

  /** The four statements of a Lock in a row, with nobody in between. */
  function WholeLock(c: nat, key: string): seq<Action> {
    [BeginLock(c, key), ExecInsert(c, Done)] + [ExecRead(c, Done), ExecReclaim(c, Done)] + [ExecReclaim(c, Done),
        Tick(0)]
  }

  lemma RunTwo(cfg: Config, s: State, a: Action, b: Action)
    ensures Run(cfg, s, [a, b]) == Apply(cfg, Apply(cfg, s, a), b)
  {
    hide Apply;
    assert [a, b][1..] == [b] && [b][1..] == [];
    assert Run(cfg, Apply(cfg, s, a), [b]) == Run(cfg, Apply(cfg, Apply(cfg, s, a), b), []);
  }

  lemma {:induction false} RunAppend(cfg: Config, s: State, a: seq<Action>, b: seq<Action>)
    ensures Run(cfg, s, a + b) == Run(cfg, Run(cfg, s, a), b)
    decreases |a|
  {
    hide Apply;
    if a == [] {
      assert a + b == b;
    } else {
      assert (a + b)[1..] == a[1..] + b;
      RunAppend(cfg, Apply(cfg, s, a[0]), a[1..], b);
    }
  }

  /**
   A Lock with nobody in between is granted for lockTTL if there is no row, or its retention is over, or its lease is;
   otherwise it is told the status of the row, which stays as it is.
   */
  lemma LockDecides(cfg: Config, s: State, c: nat, key: string)
    requires At(s, c).Idle? && key != ""
    ensures var t := Run(cfg, s, WholeLock(c, key));
            var free := key !in s.table || s.clock > s.table[key].expiresAt
                        || (s.table[key].status.InProgress? && s.clock > s.table[key].lockedUntil);
            && (free ==> At(t, c) == Holding(key, s.clock + cfg.lockTTL))
            && (free ==> t.table == s.table[key := Row(InProgress, s.clock + cfg.lockTTL, s.clock + cfg.responseTTL)])
            && (!free ==> At(t, c) == Answered(key, s.table[key].status) && t.table == s.table)
            && t.clock == s.clock
  {
    hide Run;
    var s2 := Apply(cfg, Apply(cfg, s, BeginLock(c, key)), ExecInsert(c, Done));
    var s4 := Apply(cfg, Apply(cfg, s2, ExecRead(c, Done)), ExecReclaim(c, Done));
    RunTwo(cfg, s, BeginLock(c, key), ExecInsert(c, Done));
    RunTwo(cfg, s2, ExecRead(c, Done), ExecReclaim(c, Done));
    RunTwo(cfg, s4, ExecReclaim(c, Done), Tick(0));
    RunAppend(cfg, s, [BeginLock(c, key), ExecInsert(c, Done)], [ExecRead(c, Done), ExecReclaim(c, Done)]);
    RunAppend(cfg, s, [BeginLock(c, key), ExecInsert(c, Done)] + [ExecRead(c, Done), ExecReclaim(c, Done)],
              [ExecReclaim(c, Done), Tick(0)]);
    LockStarts(cfg, s, c, key);
    if key in s.table {
      LockReads(cfg, s2, c, key);
    } else {
      LockHeld(cfg, s2, c);
      LockHeld(cfg, s4, c);
    }
  }

  lemma LockStarts(cfg: Config, s: State, c: nat, key: string)
    requires At(s, c).Idle? && key != ""
    ensures var t := Apply(cfg, Apply(cfg, s, BeginLock(c, key)), ExecInsert(c, Done));
            && t.clock == s.clock
            && (key in s.table ==> At(t, c) == Reading(key, s.clock) && t.table == s.table)
            && (key !in s.table ==>
                  At(t, c) == Holding(key, s.clock + cfg.lockTTL)
                  && t.table == s.table[key := Row(InProgress, s.clock + cfg.lockTTL, s.clock + cfg.responseTTL)])
  {
  }

  lemma LockHeld(cfg: Config, s: State, c: nat)
    requires At(s, c).Holding?
    ensures Apply(cfg, s, ExecRead(c, Done)) == s && Apply(cfg, s, ExecReclaim(c, Done)) == s
    ensures Apply(cfg, s, Tick(0)) == s
  {
  }

  lemma LockReads(cfg: Config, s: State, c: nat, key: string)
    requires At(s, c) == Reading(key, s.clock) && key in s.table
    ensures var u := Apply(cfg, Apply(cfg, s, ExecRead(c, Done)), ExecReclaim(c, Done));
            var t := Apply(cfg, Apply(cfg, u, ExecReclaim(c, Done)), Tick(0));
            var row := s.table[key];
            var free := s.clock > row.expiresAt || (row.status.InProgress? && s.clock > row.lockedUntil);
            && t.clock == s.clock
            && (free ==> At(t, c) == Holding(key, s.clock + cfg.lockTTL))
            && (free ==> t.table == s.table[key := Row(InProgress, s.clock + cfg.lockTTL, s.clock + cfg.responseTTL)])
            && (!free ==> At(t, c) == Answered(key, row.status) && t.table == s.table)
  {
  }

  /** Unlock by a live holder frees the key: the row is gone and the next Lock is granted at once. */
  lemma UnlockFrees(cfg: Config, clock: int, actions: seq<Action>, c: nat, d: nat, key: string)
    requires cfg.lockTTL <= cfg.responseTTL && DisciplinedRun(cfg, Start(clock), actions) && key != ""
    requires var s := Run(cfg, Start(clock), actions);
             Live(s, c, key) && At(s, c).Holding? && d != c && At(s, d).Idle?
    ensures var s := Apply(cfg, Run(cfg, Start(clock), actions), ExecUnlock(c, Done));
            key !in s.table && At(Run(cfg, s, WholeLock(d, key)), d) == Holding(key, s.clock + cfg.lockTTL)
  {
    hide Run, DisciplinedRun;
    RunInv(cfg, Start(clock), actions);
    var s := Run(cfg, Start(clock), actions);
    assert ClientOk(s, At(s, c));
    LockDecides(cfg, Apply(cfg, s, ExecUnlock(c, Done)), d, key);
  }

  // ----- statements that fail -----

  /** A Lock that is not under way starts with a clock sample of its own, and the empty key fails it. */
  lemma BeginDecides(cfg: Config, s: State, c: nat, key: string)
    ensures var t, x := Apply(cfg, s, BeginLock(c, key)), At(s, c);
            var p := if key == "" then Failed else Inserting(key, s.clock);
            && t.table == s.table && t.clock == s.clock && (forall d: nat :: d != c ==> At(t, d) == At(s, d))
            && (x.Idle? || x.Answered? || x.Failed? ==> At(t, c) == p)
            && (x.Inserting? || x.Reading? || x.ReclaimingExpired? || x.ReclaimingLease? || x.Holding? || x.Saving? ==>
                  t == s)
  {
  }

  /** An INSERT or SELECT that is refused, or whose reply is lost, fails its Lock: nothing is granted or answered. */
  lemma FailureGrantsNothing(cfg: Config, s: State, a: Action)
    requires (a.ExecInsert? && At(s, a.c).Inserting?) || (a.ExecRead? && At(s, a.c).Reading?)
    requires !a.fate.Done?
    ensures At(Apply(cfg, s, a), a.c) == Failed
  {
  }

  /** A refused statement leaves every row as it was. */
  lemma RefusalChangesNothing(cfg: Config, s: State, a: Action)
    requires a.ExecInsert? || a.ExecRead? || a.ExecReclaim? || a.ExecSave? || a.ExecUnlock?
    requires a.fate.Refused?
    ensures Apply(cfg, s, a).table == s.table
  {
  }

  /** Losing the reply changes what the caller knows, not what the statement does. */
  lemma LostReplyTakesEffect(cfg: Config, s: State, c: nat)
    ensures Apply(cfg, s, ExecInsert(c, ReplyLost)).table == Apply(cfg, s, ExecInsert(c, Done)).table
    ensures Apply(cfg, s, ExecReclaim(c, ReplyLost)).table == Apply(cfg, s, ExecReclaim(c, Done)).table
    ensures Apply(cfg, s, ExecSave(c, ReplyLost)).table == Apply(cfg, s, ExecSave(c, Done)).table
    ensures Apply(cfg, s, ExecUnlock(c, ReplyLost)).table == Apply(cfg, s, ExecUnlock(c, Done)).table
  {
  }

  /** A call is over with its last statement, whatever its fate, and Unlock spares a completed row. */
  lemma CallIsOver(cfg: Config, s: State, c: nat, response: Response, fate: Fate)
    requires At(s, c).Holding?
    ensures var key, until := At(s, c).key, At(s, c).until;
            var saving, freed := Apply(cfg, s, BeginSave(c, response)), Apply(cfg, s, ExecUnlock(c, fate));
            && At(saving, c) == Saving(key, until, s.clock, response)
            && At(Apply(cfg, saving, ExecSave(c, fate)), c) == Idle && At(freed, c) == Idle
            && At(Apply(cfg, s, Abandon(c)), c) == Idle
            && (key in s.table && s.table[key].status.Completed? ==> freed.table == s.table)
            && (forall k :: k != key ==> SameRow(s, freed, k))
  {
  }

  /** The row of `key` is a lock until `until`, and nobody holds it. */
  ghost predicate Orphaned(s: State, key: string, until: int) {
    && key in s.table && s.table[key].status.InProgress?
    && s.table[key].lockedUntil == until <= s.table[key].expiresAt
    && forall c: nat :: !Live(s, c, key)
  }

  lemma OrphanStep(cfg: Config, s: State, a: Action, key: string, until: int)
    requires Inv(s) && Disciplined(s, a) && Orphaned(s, key, until)
    requires Apply(cfg, s, a).clock <= until
    ensures Orphaned(Apply(cfg, s, a), key, until)
  {
    var t := Apply(cfg, s, a);
    match a
    case Tick(_) =>
      assert forall c: nat :: Live(t, c, key) ==> Live(s, c, key);
    case ExecDelete(_) =>
    case _ =>
      var c := a.c;
      assert ClientOk(s, At(s, c)) && !Live(s, c, key);
      OrphanMove(cfg, s, a, c, key);
      assert forall d: nat :: d != c ==> (Live(t, d, key) <==> Live(s, d, key)) by {
        hide ClientOk, Inv, Exclusive, Disciplined;
      }
  }

  /** A client that is not live on a locked key leaves its row alone and does not get it. */
  lemma OrphanMove(cfg: Config, s: State, a: Action, c: nat, key: string)
    requires !a.Tick? && !a.ExecDelete? && c == a.c && ClientOk(s, At(s, c)) && !Live(s, c, key) && Disciplined(s, a)
    requires key in s.table && s.table[key].status.InProgress?
    requires s.clock <= s.table[key].lockedUntil <= s.table[key].expiresAt
    ensures var t := Apply(cfg, s, a);
            && t.clock == s.clock && SameRow(s, t, key) && !Live(t, c, key)
            && (forall d: nat :: d != c ==> At(t, d) == At(s, d))
  {
  }

  lemma {:induction false} OrphanRun(cfg: Config, s: State, actions: seq<Action>, key: string, until: int)
    requires Inv(s) && DisciplinedRun(cfg, s, actions) && cfg.lockTTL <= cfg.responseTTL
    requires Orphaned(s, key, until) && Run(cfg, s, actions).clock <= until
    ensures Orphaned(Run(cfg, s, actions), key, until)
    decreases |actions|
  {
    hide Inv, Apply, Disciplined, Orphaned;
    if actions != [] {
      var t := Apply(cfg, s, actions[0]);
      ClockAdvances(cfg, t, actions[1..]);
      OrphanStep(cfg, s, actions[0], key, until);
      StepInv(cfg, s, actions[0]);
      OrphanRun(cfg, t, actions[1..], key, until);
    }
  }

  /**
   An INSERT that takes the row but loses its reply fails the Lock and locks everyone out until lockTTL after its clock
   sample, whatever the others do; every Lock by itself is told of a conflict until then and is granted after.
   */
  lemma LostInsertLocksOut(cfg: Config, clock: int, before: seq<Action>, c: nat, after: seq<Action>, d: nat)
    requires cfg.lockTTL <= cfg.responseTTL && DisciplinedRun(cfg, Start(clock), before)
    requires var s := Run(cfg, Start(clock), before);
             var t := Apply(cfg, s, ExecInsert(c, ReplyLost));
             && At(s, c).Inserting? && At(s, c).key != "" && At(s, c).key !in s.table
             && DisciplinedRun(cfg, t, after) && Run(cfg, t, after).clock <= At(s, c).now + cfg.lockTTL
             && At(Run(cfg, t, after), d).Idle?
    ensures var s := Run(cfg, Start(clock), before);
            var t, key, until := Apply(cfg, s, ExecInsert(c, ReplyLost)), At(s, c).key, At(s, c).now + cfg.lockTTL;
            var u := Run(cfg, t, after);
            && At(t, c) == Failed && (forall e: nat :: !Live(u, e, key))
            && At(Run(cfg, u, WholeLock(d, key)), d) == Answered(key, InProgress)
            && (forall elapsed: nat :: u.clock + elapsed > until ==>
                  At(Run(cfg, Apply(cfg, u, Tick(elapsed)), WholeLock(d, key)), d)
                  == Holding(key, u.clock + elapsed + cfg.lockTTL))
  {
    hide Run, DisciplinedRun;
    RunInv(cfg, Start(clock), before);
    var s := Run(cfg, Start(clock), before);
    var t, key, until := Apply(cfg, s, ExecInsert(c, ReplyLost)), At(s, c).key, At(s, c).now + cfg.lockTTL;
    LostInsertOrphans(cfg, s, c);
    OrphanRun(cfg, t, after, key, until);
    var u := Run(cfg, t, after);
    LockDecides(cfg, u, d, key);
    forall elapsed: nat | u.clock + elapsed > until
      ensures At(Run(cfg, Apply(cfg, u, Tick(elapsed)), WholeLock(d, key)), d)
              == Holding(key, u.clock + elapsed + cfg.lockTTL)
    {
      LockDecides(cfg, Apply(cfg, u, Tick(elapsed)), d, key);
    }
  }

  lemma LostInsertOrphans(cfg: Config, s: State, c: nat)
    requires Inv(s) && cfg.lockTTL <= cfg.responseTTL && At(s, c).Inserting? && At(s, c).key !in s.table
    ensures var t, p := Apply(cfg, s, ExecInsert(c, ReplyLost)), At(s, c);
            Inv(t) && At(t, c) == Failed && Orphaned(t, p.key, p.now + cfg.lockTTL)
  {
    InsertInv(cfg, s, c, ReplyLost);
    NobodyLive(s, At(s, c).key);
    var t := Apply(cfg, s, ExecInsert(c, ReplyLost));
    assert forall d: nat :: d != c ==> (Live(t, d, At(s, c).key) <==> Live(s, d, At(s, c).key));
  }

  /** Delete removes the row whatever its status, and no other: the next Lock is granted at once. */
  lemma DeleteFrees(cfg: Config, s: State, c: nat, key: string)
    requires At(s, c).Idle? && key != ""
    ensures var t := Apply(cfg, s, ExecDelete(key));
            && key !in t.table && t.clients == s.clients && (forall k :: k != key ==> SameRow(s, t, k))
            && At(Run(cfg, t, WholeLock(c, key)), c) == Holding(key, s.clock + cfg.lockTTL)
  {
    hide Run;
    LockDecides(cfg, Apply(cfg, s, ExecDelete(key)), c, key);
  }
}
