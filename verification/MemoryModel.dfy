/** The in-memory idempotency store on values, and the HTTP middleware that drives it, request against request. */
module MemoryModel {
  import opened Common

  /** A response by value. A nil header map is None. */
  datatype Payload = Payload(statusCode: int, headers: Option<map<string, seq<string>>>, body: seq<bv8>)

  datatype Status = InProgress | Completed(payload: Payload)

  datatype Stored = Stored(status: Status, updatedAt: int)

  type Table = map<string, Stored>

  /** A TTL or cap that is not positive is switched off. */
  datatype Config = Config(lockTTL: int, responseTTL: int, maxEntries: int)

  datatype Answer = Acquired | Exists(status: Status)

  predicate LockExpired(cfg: Config, r: Stored, now: int) {
    cfg.lockTTL > 0 && r.status.InProgress? && now - r.updatedAt > cfg.lockTTL
  }

  predicate ResponseExpired(cfg: Config, r: Stored, now: int) {
    cfg.responseTTL > 0 && r.status.Completed? && now - r.updatedAt > cfg.responseTTL
  }

  predicate Expired(cfg: Config, r: Stored, now: int) {
    LockExpired(cfg, r, now) || ResponseExpired(cfg, r, now)
  }

  /** Lock, once there is room. */
  function Lock(cfg: Config, t: Table, key: string, now: int): (Table, Answer) {
    if key in t && !Expired(cfg, t[key], now) then (t, Exists(t[key].status))
    else (t[key := Stored(InProgress, now)], Acquired)
  }

  function Save(t: Table, key: string, payload: Payload, now: int): Table {
    t[key := Stored(Completed(payload), now)]
  }

  function Unlock(t: Table, key: string): Table {
    if key in t && t[key].status.InProgress? then t - {key} else t
  }

  ghost function DropExpired(cfg: Config, t: Table, now: int): Table {
    map k | k in t && !Expired(cfg, t[k], now) :: t[k]
  }

  /** The choice that evictOldest has among equally old records; a record under the empty key is never deleted. */
  ghost predicate DropsOldest(t: Table, u: Table) {
    if t == map[] then u == t
    else exists k :: k in t && IsOldest(t, k) && u == if k == "" then t else t - {k}
  }

  ghost predicate IsOldest(t: Table, k: string)
    requires k in t
  {
    forall j :: j in t ==> t[k].updatedAt <= t[j].updatedAt
  }

  /** What making room before an insertion may leave. */
  ghost predicate MakesRoom(cfg: Config, t: Table, u: Table, now: int) {
    if cfg.maxEntries <= 0 || |t| < cfg.maxEntries then u == t
    else
      var e := DropExpired(cfg, t, now);
      if |e| < cfg.maxEntries then u == e else DropsOldest(e, u)
  }

  /** Making room only removes. */
  lemma RoomKeys(cfg: Config, t: Table, u: Table, now: int)
    requires MakesRoom(cfg, t, u, now)
    ensures u.Keys <= t.Keys
  {
    hide DropExpired, IsOldest;
    DroppedKeys(cfg, t, now);
  }

  lemma SmallerKeys(e: Table, t: Table)
    requires e.Keys <= t.Keys
    ensures |e| <= |t|
  {
    assert |t| == |t.Keys| == |e.Keys| + |t.Keys - e.Keys| && |e| == |e.Keys|;
  }

  lemma DroppedKeys(cfg: Config, t: Table, now: int)
    ensures DropExpired(cfg, t, now).Keys <= t.Keys
  {
  }

  /** The table as a call that may insert `key` finds it, after making room if the key is new. */
  ghost predicate RoomFor(cfg: Config, t: Table, key: string, room: Table, now: int) {
    if key in t then room == t else MakesRoom(cfg, t, room, now)
  }

  // ----- requests through the middleware -----

  datatype Request =
    | Absent
    | Handling(key: string)
    | Saving(key: string, payload: Payload)
    | Unlocking(key: string)
    | Served(key: string, payload: Payload)
    | Conflict(key: string)
    | StoreError

  datatype State = State(clock: int, table: Table, requests: map<nat, Request>)

  /**
   `cancelled` tells whether the request's context is done when the store is called, and `room` is what the store makes
   of its table before it inserts. A handler that quits ends its goroutine with runtime.Goexit.
   */
  datatype Action =
    | Tick(elapsed: nat)
    | Arrive(r: nat, key: string, cancelled: bool, room: Table)
    | Return(r: nat, payload: Payload, cacheable: bool)
    | Panic(r: nat)
    | Quit(r: nat)
    | Commit(r: nat, cancelled: bool, room: Table)
    | Sweep

  function At(s: State, r: nat): Request {
    if r in s.requests then s.requests[r] else Absent
  }

  function Put(s: State, r: nat, q: Request): State {
    s.(requests := s.requests[r := q])
  }

  predicate Over(q: Request) {
    q.Absent? || q.Served? || q.Conflict? || q.StoreError?
  }

  ghost function Admit(cfg: Config, s: State, r: nat, key: string): State {
    var (t, answer) := Lock(cfg, s.table, key, s.clock);
    Put(s.(table := t), r,
        match answer
        case Acquired => Handling(key)
        case Exists(InProgress) => Conflict(key)
        case Exists(Completed(p)) => Served(key, p))
  }

  /** One atomic step; an action that does not fit the request's position changes nothing. */
  ghost function Step(cfg: Config, s: State, a: Action): State {
    match a
    case Tick(elapsed) => s.(clock := s.clock + elapsed)
    case Arrive(r, key, cancelled, room) =>
      if !Over(At(s, r)) then s
      else if cancelled then Put(s, r, StoreError)
      else if RoomFor(cfg, s.table, key, room, s.clock) then Admit(cfg, s.(table := room), r, key)
      else s
    case Return(r, payload, cacheable) =>
      (match At(s, r)
       case Handling(key) => Put(s, r, if cacheable then Saving(key, payload) else Unlocking(key))
       case _ => s)
    case Panic(r) =>
      (match At(s, r)
       case Handling(key) => Put(s, r, Unlocking(key))
       case _ => s)
    case Quit(r) =>
      (match At(s, r)
       case Handling(_) => Put(s, r, Absent)
       case _ => s)
    case Commit(r, cancelled, room) =>
      (match At(s, r)
       case Saving(key, p) =>
         if cancelled then Put(s, r, Absent)
         else if RoomFor(cfg, s.table, key, room, s.clock) then
           Put(s.(table := Save(room, key, p, s.clock)), r, Absent)
         else s
       case Unlocking(key) => Put(if cancelled then s else s.(table := Unlock(s.table, key)), r, Absent)
       case _ => s)
    case Sweep => s.(table := DropExpired(cfg, s.table, s.clock))
  }

  ghost function Run(cfg: Config, s: State, actions: seq<Action>): State
    decreases |actions|
  {
    if actions == [] then s else Run(cfg, Step(cfg, s, actions[0]), actions[1..])
  }

  function Start(clock: int): State {
    State(clock, map[], map[])
  }

  /** The request owns `key`: its handler runs, or its closing store call is still to come. */
  predicate Owns(q: Request, key: string) {
    (q.Handling? || q.Saving? || q.Unlocking?) && q.key == key
  }

  ghost predicate Exclusive(s: State) {
    forall r, q, key :: Owns(At(s, r), key) && Owns(At(s, q), key) ==> r == q
  }

  /** What is owned is marked in progress. */
  ghost predicate Marked(s: State, key: string) {
    key in s.table && s.table[key].status.InProgress?
  }

  ghost predicate Inv(s: State) {
    Exclusive(s) && forall r, key :: Owns(At(s, r), key) ==> Marked(s, key)
  }

  /** Locks do not time out, and no record is dropped to make room. */
  predicate Unlimited(cfg: Config) {
    cfg.lockTTL <= 0 && cfg.maxEntries <= 0
  }

  lemma StepInv(cfg: Config, s: State, a: Action)
    requires Inv(s) && Unlimited(cfg)
    ensures Inv(Step(cfg, s, a))
  {
    hide Inv, Expired, DropExpired;
    var t := Step(cfg, s, a);
    match a {
      case Tick(_) => SameRequests(s, t);
      case Sweep => SweepKeepsMarks(cfg, s); SameRequests(s, t);
      case Arrive(_, _, _, _) => ArriveInv(cfg, s, a);
      case Return(r, _, _) => MoveInv(s, t, r);
      case Panic(r) => MoveInv(s, t, r);
      case Quit(r) => MoveInv(s, t, r);
      case Commit(_, _, _) => CommitInv(cfg, s, a);
    }
  }

  lemma SweepKeepsMarks(cfg: Config, s: State)
    requires cfg.lockTTL <= 0
    ensures forall key :: Marked(s, key) ==> Marked(s.(table := DropExpired(cfg, s.table, s.clock)), key)
  {
  }

  lemma ArriveInv(cfg: Config, s: State, a: Action)
    requires Inv(s) && Unlimited(cfg) && a.Arrive?
    ensures Inv(Step(cfg, s, a))
  {
    var t := Step(cfg, s, a);
    if t != s && Over(At(s, a.r)) {
      OneRequest(s, t, a.r, a.key);
    }
  }

  /** The request keeps what it owns and the table does not change. */
  lemma MoveInv(s: State, t: State, r: nat)
    requires Inv(s) && t.table == s.table && (forall q: nat :: q != r ==> At(t, q) == At(s, q))
    requires forall k :: Owns(At(t, r), k) ==> Owns(At(s, r), k)
    ensures Inv(t)
  {
    forall q: nat, k | Owns(At(t, q), k)
      ensures Owns(At(s, q), k) && Marked(t, k)
    {
      assert Owns(At(s, q), k) && Marked(s, k);
    }
  }

  lemma CommitInv(cfg: Config, s: State, a: Action)
    requires Inv(s) && Unlimited(cfg) && a.Commit?
    ensures Inv(Step(cfg, s, a))
  {
    var t := Step(cfg, s, a);
    if t != s && (At(s, a.r).Saving? || At(s, a.r).Unlocking?) {
      assert Owns(At(s, a.r), At(s, a.r).key);
      OneRequest(s, t, a.r, At(s, a.r).key);
    }
  }

  lemma SameRequests(s: State, t: State)
    requires Inv(s) && t.requests == s.requests && forall key :: Marked(s, key) ==> Marked(t, key)
    ensures Inv(t)
  {
    assert forall r :: At(t, r) == At(s, r);
  }

  /** A step of request `r` on `key` is safe if `r` keeps or takes what nobody else owns. */
  lemma OneRequest(s: State, t: State, r: nat, key: string)
    requires Inv(s) && (forall q: nat :: q != r ==> At(t, q) == At(s, q))
    requires forall k :: k != key && Marked(s, k) ==> Marked(t, k)
    requires forall k :: Owns(At(t, r), k) ==> k == key && Marked(t, k)
    requires Marked(s, key) && !Marked(t, key) ==> Owns(At(s, r), key)
    requires Owns(At(t, r), key) ==> Owns(At(s, r), key) || !Marked(s, key)
    ensures Inv(t)
  {
    forall q: nat, k | Owns(At(t, q), k)
      ensures Marked(t, k) && forall q': nat :: Owns(At(t, q'), k) ==> q' == q
    {
      if q != r {
        assert Owns(At(s, q), k) && Marked(s, k);
      }
    }
  }

  lemma {:induction false} RunInv(cfg: Config, s: State, actions: seq<Action>)
    requires Inv(s) && Unlimited(cfg)
    ensures Inv(Run(cfg, s, actions))
    decreases |actions|
  {
    hide Inv, Step;
    if actions != [] {
      StepInv(cfg, s, actions[0]);
      RunInv(cfg, Step(cfg, s, actions[0]), actions[1..]);
    }
  }

  ghost predicate AlwaysExclusive(cfg: Config, clock: int) {
    forall actions :: Exclusive(Run(cfg, Start(clock), actions))
  }

  /**
   At most one request per key runs the handler, in every interleaving, exactly when locks do not time out and the
   store has no cap.
   */
  lemma ExclusionIff(cfg: Config, clock: int)
    ensures AlwaysExclusive(cfg, clock) <==> cfg.lockTTL <= 0 && cfg.maxEntries <= 0
  {
    hide Step, Run;
    if cfg.lockTTL > 0 {
      var actions := TimedOutLock(cfg, clock);
    } else if cfg.maxEntries > 0 {
      var actions := EvictedLock(cfg, clock);
    } else {
      StartInv(clock);
      forall actions
        ensures Exclusive(Run(cfg, Start(clock), actions))
      {
        RunInv(cfg, Start(clock), actions);
      }
    }
  }

  lemma StartInv(clock: int)
    ensures Inv(Start(clock))
  {
  }

  lemma RunOne(cfg: Config, s: State, a: Action)
    ensures Run(cfg, s, [a]) == Step(cfg, s, a)
  {
    hide Step;
    assert Run(cfg, s, [a]) == Run(cfg, Step(cfg, s, a), []);
  }

  lemma RunTwo(cfg: Config, s: State, a: Action, b: Action)
    ensures Run(cfg, s, [a, b]) == Step(cfg, Step(cfg, s, a), b)
  {
    hide Step;
    assert [a, b][1..] == [b] && [b][1..] == [];
    assert Run(cfg, Step(cfg, s, a), [b]) == Run(cfg, Step(cfg, Step(cfg, s, a), b), []);
  }

  lemma {:induction false} RunAppend(cfg: Config, s: State, a: seq<Action>, b: seq<Action>)
    ensures Run(cfg, s, a + b) == Run(cfg, Run(cfg, s, a), b)
    decreases |a|
  {
    hide Step;
    if a == [] {
      assert a + b == b;
    } else {
      assert (a + b)[1..] == a[1..] + b;
      RunAppend(cfg, Step(cfg, s, a[0]), a[1..], b);
    }
  }

  /** A lock that has timed out is granted again while its first handler runs. */
  lemma TimedOutLock(cfg: Config, clock: int) returns (actions: seq<Action>)
    requires cfg.lockTTL > 0
    ensures !Exclusive(Run(cfg, Start(clock), actions))
  {
    hide Run;
    var t: Table := map["k" := Stored(InProgress, clock)];
    var x, y := [Arrive(0, "k", false, map[]), Tick(cfg.lockTTL + 1)], Arrive(1, "k", false, t);
    var s1 := Step(cfg, Start(clock), x[0]);
    var s2 := Step(cfg, s1, x[1]);
    var s4 := Step(cfg, Step(cfg, s2, y), Tick(0));
    assert MakesRoom(cfg, map[], map[], clock) && s2.table == t;
    RunTwo(cfg, Start(clock), x[0], x[1]);
    RunTwo(cfg, s2, y, Tick(0));
    RunAppend(cfg, Start(clock), x, [y, Tick(0)]);
    assert Owns(At(s4, 0), "k") && Owns(At(s4, 1), "k");
    actions := x + [y, Tick(0)];
  }

  // ----- a capped store that drops the lock of a running handler -----

  /** Keys of different lengths. */
  function Key(i: nat): string {
    seq(i + 1, _ => 'k')
  }

  /** `n` locks, one unit of time apart. */
  ghost function Locks(clock: int, n: nat): Table {
    if n == 0 then map[] else Locks(clock, n - 1)[Key(n - 1) := Stored(InProgress, clock + n)]
  }

  ghost predicate LockedAt(t: Table, clock: int, i: nat) {
    Key(i) in t && t[Key(i)] == Stored(InProgress, clock + i + 1)
  }

  lemma KeysDiffer(i: nat, j: nat)
    ensures Key(i) == Key(j) <==> i == j
  {
    assert |Key(i)| == i + 1 && |Key(j)| == j + 1;
  }

  lemma {:induction false} LocksAre(clock: int, n: nat)
    ensures |Locks(clock, n)| == n
    ensures forall i: nat :: i < n ==> LockedAt(Locks(clock, n), clock, i)
    ensures forall k :: k in Locks(clock, n) ==> Locks(clock, n)[k].updatedAt >= clock + 1
    ensures forall i: nat :: i >= n ==> Key(i) !in Locks(clock, n)
  {
    if n > 0 {
      LocksAre(clock, n - 1);
      var t := Locks(clock, n);
      assert t.Keys == Locks(clock, n - 1).Keys + {Key(n - 1)} && |t| == |t.Keys|;
      assert |Locks(clock, n - 1)| == |Locks(clock, n - 1).Keys|;
      forall i: nat
        ensures i < n ==> LockedAt(t, clock, i)
        ensures i >= n ==> Key(i) !in t
      {
        KeysDiffer(i, n - 1);
        assert i < n - 1 ==> LockedAt(Locks(clock, n - 1), clock, i);
      }
    }
  }

  /** Requests 0 to n - 1 run their handlers, each on its own key. */
  ghost predicate AllHandling(s: State, clock: int, n: nat) {
    && s.clock == clock + n && s.table == Locks(clock, n)
    && (forall i: nat :: i < n ==> At(s, i) == Handling(Key(i)))
    && (forall i: nat :: i >= n ==> At(s, i).Absent?)
  }

  lemma {:induction false} FillStore(cfg: Config, clock: int, n: nat) returns (actions: seq<Action>)
    requires cfg.lockTTL <= 0 && n <= cfg.maxEntries
    ensures AllHandling(Run(cfg, Start(clock), actions), clock, n)
  {
    hide Locks, MakesRoom, DropExpired, Lock;
    NoLocks(clock);
    actions := [];
    if n > 0 {
      var before := FillStore(cfg, clock, n - 1);
      var s := Run(cfg, Start(clock), before);
      var a, b := Tick(1), Arrive(n - 1, Key(n - 1), false, Locks(clock, n - 1));
      LocksAre(clock, n - 1);
      assert forall i: nat :: At(Step(cfg, s, a), i) == At(s, i);
      ArriveNew(cfg, Step(cfg, s, a), clock, n - 1);
      RunTwo(cfg, s, a, b);
      RunAppend(cfg, Start(clock), before, [a, b]);
      actions := before + [a, b];
    }
  }

  lemma NoLocks(clock: int)
    ensures Locks(clock, 0) == map[]
  {
  }

  lemma ArriveNew(cfg: Config, s: State, clock: int, n: nat)
    requires s.clock == clock + n + 1 && s.table == Locks(clock, n) && n < cfg.maxEntries
    requires (forall i: nat :: i < n ==> At(s, i) == Handling(Key(i))) && (forall i: nat :: i >= n ==> At(s, i).Absent?)
    ensures AllHandling(Step(cfg, s, Arrive(n, Key(n), false, Locks(clock, n))), clock, n + 1)
  {
    hide Expired, DropExpired;
    LocksAre(clock, n);
    var t := Step(cfg, s, Arrive(n, Key(n), false, Locks(clock, n)));
    assert RoomFor(cfg, s.table, Key(n), Locks(clock, n), s.clock);
    assert forall i: nat :: i != n ==> At(t, i) == At(s, i);
  }

  /** Nothing expires, so a full store drops an oldest record. */
  lemma OldestGoes(cfg: Config, t: Table, k: string, now: int)
    requires cfg.lockTTL <= 0 && 0 < cfg.maxEntries == |t| && k in t && IsOldest(t, k) && k != ""
    requires forall j :: j in t ==> t[j].status.InProgress?
    ensures MakesRoom(cfg, t, t - {k}, now)
  {
    assert DropExpired(cfg, t, now) == t;
    assert DropsOldest(t, t - {k});
  }

  lemma {:induction false} LocksInProgress(clock: int, n: nat)
    ensures forall k :: k in Locks(clock, n) ==> Locks(clock, n)[k].status.InProgress?
  {
    if n > 0 {
      LocksInProgress(clock, n - 1);
    }
  }

  /** One request more than the cap drops the lock of the first, and a second request for that key is let in. */
  lemma EvictedLock(cfg: Config, clock: int) returns (actions: seq<Action>)
    requires cfg.lockTTL <= 0 < cfg.maxEntries
    ensures !Exclusive(Run(cfg, Start(clock), actions))
  {
    hide Run, Step, MakesRoom, DropExpired;
    var n: nat := cfg.maxEntries;
    var fill := FillStore(cfg, clock, n);
    var s := Run(cfg, Start(clock), fill);
    var key, t := Key(0), Locks(clock, n);
    var room := t - {key};
    LocksAre(clock, n);
    LocksInProgress(clock, n);
    assert LockedAt(t, clock, 0);
    OldestGoes(cfg, t, key, s.clock);
    var a := Arrive(n, Key(n), false, room);
    Insert(cfg, s, a);
    var s1 := Step(cfg, s, a);
    StillFull(clock, n, s.clock);
    var b := SecondLock(cfg, s1, clock, n);
    var s2 := Step(cfg, s1, b);
    assert At(s2, 0) == At(s1, 0) == At(s, 0) == Handling(key);
    assert Owns(At(s2, 0), key) && Owns(At(s2, n + 1), key);
    RunTwo(cfg, s, a, b);
    RunAppend(cfg, Start(clock), fill, [a, b]);
    actions := fill + [a, b];
  }

  /** The locks with the first one replaced by a new one. */
  ghost function Shifted(clock: int, n: nat, now: int): Table {
    (Locks(clock, n) - {Key(0)})[Key(n) := Stored(InProgress, now)]
  }

  lemma StillFull(clock: int, n: nat, now: int)
    requires 0 < n
    ensures var u := Shifted(clock, n, now);
            && |u| == n && Key(0) !in u && "" !in u && forall k :: k in u ==> u[k].status.InProgress?
  {
    hide Locks, Key;
    var t, u := Locks(clock, n), Shifted(clock, n, now);
    LocksAre(clock, n);
    LocksInProgress(clock, n);
    KeysDiffer(0, n);
    assert LockedAt(t, clock, 0);
    assert u.Keys == (t.Keys - {Key(0)}) + {Key(n)} && |u| == |u.Keys| && |t| == |t.Keys|;
    if "" in u {
      NotEmptyKey(clock, n, "");
    }
  }

  lemma SecondLock(cfg: Config, s: State, clock: int, n: nat) returns (b: Action)
    requires cfg.lockTTL <= 0 < cfg.maxEntries == n && s.table == Shifted(clock, n, s.clock) && Over(At(s, n + 1))
    ensures b.Arrive? && var t := Step(cfg, s, b);
                         At(t, n + 1) == Handling(Key(0)) && forall q: nat :: q != n + 1 ==> At(t, q) == At(s, q)
  {
    hide Step, MakesRoom, DropExpired, Shifted;
    StillFull(clock, n, s.clock);
    var k := AnOldest(s.table);
    OldestGoes(cfg, s.table, k, s.clock);
    b := Arrive(n + 1, Key(0), false, s.table - {k});
    Insert(cfg, s, b);
  }

  lemma {:induction false} NotEmptyKey(clock: int, n: nat, k: string)
    requires k in Locks(clock, n) || k == Key(n)
    ensures k != ""
    decreases n
  {
    if k != Key(n) {
      NotEmptyKey(clock, n - 1, k);
    }
  }

  /** A request for a new key, when room is made for it. */
  lemma Insert(cfg: Config, s: State, a: Action)
    requires a.Arrive? && !a.cancelled && Over(At(s, a.r)) && a.key !in s.table
    requires MakesRoom(cfg, s.table, a.room, s.clock)
    ensures var t := Step(cfg, s, a);
            && t.clock == s.clock && t.table == a.room[a.key := Stored(InProgress, s.clock)]
            && At(t, a.r) == Handling(a.key) && forall q: nat :: q != a.r ==> At(t, q) == At(s, q)
  {
    hide Expired;
    RoomKeys(cfg, s.table, a.room, s.clock);
  }

  /** There is always an oldest record. */
  lemma AnOldest(t: Table) returns (k: string)
    requires t != map[]
    ensures k in t && IsOldest(t, k)
  {
    k := OldestAmong(t, t.Keys);
  }

  lemma {:induction false} OldestAmong(t: Table, keys: set<string>) returns (k: string)
    requires keys != {} && keys <= t.Keys
    ensures k in keys && forall j :: j in keys ==> t[k].updatedAt <= t[j].updatedAt
    decreases keys
  {
    k :| k in keys;
    if keys != {k} {
      var m := OldestAmong(t, keys - {k});
      if t[m].updatedAt < t[k].updatedAt {
        k := m;
      }
    }
  }

  // ----- replay of a saved response -----

  predicate Kept(s: State, key: string, payload: Payload, savedAt: int) {
    key in s.table && s.table[key] == Stored(Completed(payload), savedAt)
  }

  predicate InRetention(cfg: Config, savedAt: int, now: int) {
    cfg.responseTTL <= 0 || now - savedAt <= cfg.responseTTL
  }

  /** The step starts no handler on `key`, and a request for `key` whose context is alive is served the payload. */
  ghost predicate Replays(cfg: Config, s: State, a: Action, key: string, payload: Payload) {
    var t := Step(cfg, s, a);
    && (forall r: nat :: !Owns(At(t, r), key))
    && (a.Arrive? && a.key == key && !a.cancelled && Over(At(s, a.r)) && RoomFor(cfg, s.table, key, a.room, s.clock) ==>
          At(t, a.r) == Served(key, payload))
  }

  ghost predicate ReplaysThroughout(cfg: Config, s: State, actions: seq<Action>, key: string, payload: Payload)
    decreases |actions|
  {
    actions == [] ||
    (Replays(cfg, s, actions[0], key, payload)
     && ReplaysThroughout(cfg, Step(cfg, s, actions[0]), actions[1..], key, payload))
  }

  lemma KeptStep(cfg: Config, s: State, a: Action, key: string, payload: Payload, savedAt: int)
    requires Inv(s) && Unlimited(cfg) && Kept(s, key, payload, savedAt)
    requires InRetention(cfg, savedAt, Step(cfg, s, a).clock)
    ensures Kept(Step(cfg, s, a), key, payload, savedAt) && Replays(cfg, s, a, key, payload)
  {
    var t := Step(cfg, s, a);
    assert !Marked(s, key);
    assert forall r: nat :: !Owns(At(s, r), key);
    match a {
      case Tick(_) => assert forall r: nat :: At(t, r) == At(s, r);
      case Sweep => assert forall r: nat :: At(t, r) == At(s, r);
      case _ =>
        assert forall r: nat :: r != a.r ==> At(t, r) == At(s, r);
        assert !Owns(At(s, a.r), key) && !Owns(At(t, a.r), key);
    }
  }

  lemma {:induction false} ClockAdvances(cfg: Config, s: State, actions: seq<Action>)
    ensures s.clock <= Run(cfg, s, actions).clock
    decreases |actions|
  {
    if actions != [] {
      ClockAdvances(cfg, Step(cfg, s, actions[0]), actions[1..]);
    }
  }

  lemma {:induction false} KeptRun(cfg: Config, s: State, actions: seq<Action>, key: string, payload: Payload,
                                   savedAt: int)
    requires Inv(s) && Unlimited(cfg) && Kept(s, key, payload, savedAt)
    requires InRetention(cfg, savedAt, Run(cfg, s, actions).clock)
    ensures Kept(Run(cfg, s, actions), key, payload, savedAt) && ReplaysThroughout(cfg, s, actions, key, payload)
    decreases |actions|
  {
    hide Inv, Step, Kept, Replays;
    if actions != [] {
      var t := Step(cfg, s, actions[0]);
      ClockAdvances(cfg, t, actions[1..]);
      KeptStep(cfg, s, actions[0], key, payload, savedAt);
      StepInv(cfg, s, actions[0]);
      KeptRun(cfg, t, actions[1..], key, payload, savedAt);
    }
  }

  /**
   From the moment a response is saved until its retention ends, no handler runs for the key and every live request is
   served it.
   */
  lemma SavedResponseIsReplayed(cfg: Config, clock: int, before: seq<Action>, r: nat, after: seq<Action>)
    requires Unlimited(cfg)
    requires var s := Run(cfg, Start(clock), before);
             var t := Step(cfg, s, Commit(r, false, s.table));
             At(s, r).Saving? && InRetention(cfg, s.clock, Run(cfg, t, after).clock)
    ensures var s := Run(cfg, Start(clock), before);
            var t, p := Step(cfg, s, Commit(r, false, s.table)), At(s, r);
            && ReplaysThroughout(cfg, t, after, p.key, p.payload)
            && Kept(Run(cfg, t, after), p.key, p.payload, s.clock)
  {
    hide Run, ReplaysThroughout;
    RunInv(cfg, Start(clock), before);
    var s := Run(cfg, Start(clock), before);
    var a := Commit(r, false, s.table);
    StepInv(cfg, s, a);
    KeptRun(cfg, Step(cfg, s, a), after, At(s, r).key, At(s, r).payload, s.clock);
  }

  /** The same from the handler's own response on: what a request answers is what later requests for the key get. */
  lemma ResponseIsReplayed(cfg: Config, clock: int, before: seq<Action>, r: nat, payload: Payload, after: seq<Action>)
    requires Unlimited(cfg) && At(Run(cfg, Start(clock), before), r).Handling?
    requires var s := Run(cfg, Start(clock), before);
             var t := Step(cfg, Step(cfg, s, Return(r, payload, true)), Commit(r, false, s.table));
             InRetention(cfg, s.clock, Run(cfg, t, after).clock)
    ensures var s := Run(cfg, Start(clock), before);
            var t := Step(cfg, Step(cfg, s, Return(r, payload, true)), Commit(r, false, s.table));
            ReplaysThroughout(cfg, t, after, At(s, r).key, payload)
  {
    hide Run, ReplaysThroughout;
    var a := Return(r, payload, true);
    RunAppend(cfg, Start(clock), before, [a]);
    RunOne(cfg, Run(cfg, Start(clock), before), a);
    SavedResponseIsReplayed(cfg, clock, before + [a], r, after);
  }

  /** No request that has `key` to save gets to save it. */
  ghost predicate NoSaveOf(cfg: Config, s: State, actions: seq<Action>, key: string)
    decreases |actions|
  {
    actions == [] || (!Saves(s, actions[0], key) && NoSaveOf(cfg, Step(cfg, s, actions[0]), actions[1..], key))
  }

  predicate Saves(s: State, a: Action, key: string) {
    a.Commit? && !a.cancelled && At(s, a.r).Saving? && At(s, a.r).key == key
  }

  lemma CompletedStep(cfg: Config, s: State, a: Action, key: string)
    requires cfg.maxEntries <= 0 && key in s.table && s.table[key].status.Completed? && !Saves(s, a, key)
    requires InRetention(cfg, s.table[key].updatedAt, Step(cfg, s, a).clock)
    ensures var t := Step(cfg, s, a).table; key in t && t[key] == s.table[key]
  {
  }

  /**
   Even where locks time out and several handlers run on a key, a completed record stays through whatever the others
   end in, until another response for the key is saved or its retention is over.
   */
  lemma {:induction false} CompletedStays(cfg: Config, s: State, actions: seq<Action>, key: string)
    requires cfg.maxEntries <= 0 && key in s.table && s.table[key].status.Completed?
    requires NoSaveOf(cfg, s, actions, key)
    requires InRetention(cfg, s.table[key].updatedAt, Run(cfg, s, actions).clock)
    ensures var t := Run(cfg, s, actions).table; key in t && t[key] == s.table[key]
    decreases |actions|
  {
    hide Step, Saves;
    if actions != [] {
      ClockAdvances(cfg, Step(cfg, s, actions[0]), actions[1..]);
      CompletedStep(cfg, s, actions[0], key);
      CompletedStays(cfg, Step(cfg, s, actions[0]), actions[1..], key);
    }
  }

  // ----- requests that never close their record -----

  /** The record is in progress and nobody is left who would complete or remove it. */
  ghost predicate Abandoned(s: State, key: string) {
    Marked(s, key) && forall r: nat :: !Owns(At(s, r), key)
  }

  /** A request for `key` whose context is alive is told that the operation is in progress. */
  ghost predicate Conflicts(cfg: Config, s: State, a: Action, key: string) {
    a.Arrive? && a.key == key && !a.cancelled && Over(At(s, a.r)) && RoomFor(cfg, s.table, key, a.room, s.clock) ==>
      At(Step(cfg, s, a), a.r) == Conflict(key)
  }

  ghost predicate ConflictsThroughout(cfg: Config, s: State, actions: seq<Action>, key: string)
    decreases |actions|
  {
    actions == [] ||
    (Conflicts(cfg, s, actions[0], key) && ConflictsThroughout(cfg, Step(cfg, s, actions[0]), actions[1..], key))
  }

  lemma AbandonedStep(cfg: Config, s: State, a: Action, key: string)
    requires Unlimited(cfg) && Abandoned(s, key)
    ensures Abandoned(Step(cfg, s, a), key) && Conflicts(cfg, s, a, key)
  {
    var t := Step(cfg, s, a);
    match a {
      case Tick(_) => assert forall r: nat :: At(t, r) == At(s, r);
      case Sweep => assert forall r: nat :: At(t, r) == At(s, r);
      case _ =>
        assert forall r: nat :: r != a.r ==> At(t, r) == At(s, r);
        assert !Owns(At(s, a.r), key) && !Owns(At(t, a.r), key);
    }
  }

  lemma {:induction false} AbandonedForever(cfg: Config, s: State, actions: seq<Action>, key: string)
    requires Unlimited(cfg) && Abandoned(s, key)
    ensures Abandoned(Run(cfg, s, actions), key) && ConflictsThroughout(cfg, s, actions, key)
    decreases |actions|
  {
    hide Step, Abandoned, Conflicts;
    if actions != [] {
      AbandonedStep(cfg, s, actions[0], key);
      AbandonedForever(cfg, Step(cfg, s, actions[0]), actions[1..], key);
    }
  }

  /** The request's closing store call finds its context done, or its handler quits. */
  predicate Lost(s: State, a: Action) {
    || (a.Commit? && a.cancelled && (At(s, a.r).Saving? || At(s, a.r).Unlocking?))
    || (a.Quit? && At(s, a.r).Handling?)
  }

  /** Without a lock timeout, a request that does not close its record locks everybody out of its key for good. */
  lemma LostRequestLocksOut(cfg: Config, clock: int, before: seq<Action>, a: Action, after: seq<Action>)
    requires Unlimited(cfg) && Lost(Run(cfg, Start(clock), before), a)
    ensures var s := Run(cfg, Start(clock), before);
            ConflictsThroughout(cfg, Step(cfg, s, a), after, At(s, a.r).key)
  {
    hide Run, ConflictsThroughout;
    StartInv(clock);
    RunInv(cfg, Start(clock), before);
    var s := Run(cfg, Start(clock), before);
    var t, key := Step(cfg, s, a), At(s, a.r).key;
    assert Owns(At(s, a.r), key) && Marked(s, key);
    assert forall q: nat :: q != a.r ==> At(t, q) == At(s, q);
    AbandonedForever(cfg, t, after, key);
  }

  // ----- what a request is told, and what a sweep removes -----

  /** A lock has been held too long, or a response has been kept long enough. */
  ghost predicate TimeIsUp(cfg: Config, r: Stored, now: int) {
    match r.status
    case InProgress => cfg.lockTTL > 0 && now > r.updatedAt + cfg.lockTTL
    case Completed(_) => cfg.responseTTL > 0 && now > r.updatedAt + cfg.responseTTL
  }

  /**
   A live request for a key is let in if there is no record or its time is up, and starts a new record; otherwise it is
   told of the conflict or served the response, and the record stays as it is.
   */
  lemma RequestIsDecided(cfg: Config, s: State, r: nat, key: string, room: Table)
    requires Over(At(s, r)) && RoomFor(cfg, s.table, key, room, s.clock)
    ensures var t := Step(cfg, s, Arrive(r, key, false, room));
            var free := key !in s.table || TimeIsUp(cfg, s.table[key], s.clock);
            && (free ==> At(t, r) == Handling(key) && t.table == room[key := Stored(InProgress, s.clock)])
            && (!free ==> t.table == s.table)
            && (!free && s.table[key].status.InProgress? ==> At(t, r) == Conflict(key))
            && (!free && s.table[key].status.Completed? ==> At(t, r) == Served(key, s.table[key].status.payload))
  {
    hide MakesRoom;
    if key !in s.table {
      RoomKeys(cfg, s.table, room, s.clock);
    }
  }

  /** A sweep removes exactly the records whose time is up, and changes no other. */
  lemma SweepRemoves(cfg: Config, s: State, k: string)
    ensures var t := Step(cfg, s, Sweep);
            && t.clock == s.clock && t.requests == s.requests
            && (k in t.table <==> k in s.table && !TimeIsUp(cfg, s.table[k], s.clock))
            && (k in t.table ==> t.table[k] == s.table[k])
  {
  }

  /** A request whose context is done gets an error and nothing else; one that is over leaves nothing behind. */
  lemma RequestEnds(cfg: Config, s: State, r: nat, key: string, cancelled: bool, room: Table)
    ensures Over(At(s, r)) ==> Step(cfg, s, Arrive(r, key, true, room)) == Put(s, r, StoreError)
    ensures At(s, r).Handling? ==> Step(cfg, s, Quit(r)) == Put(s, r, Absent)
    ensures At(s, r).Saving? || At(s, r).Unlocking? ==>
              && Step(cfg, s, Commit(r, true, room)) == Put(s, r, Absent)
              && (RoomFor(cfg, s.table, At(s, r).key, room, s.clock) ==>
                    At(Step(cfg, s, Commit(r, cancelled, room)), r) == Absent)
  {
  }

  /** The keys whose time is not up. */
  ghost function LiveKeys(cfg: Config, t: Table, now: int): set<string> {
    set k | k in t && !TimeIsUp(cfg, t[k], now)
  }

  /**
   Making room below the cap changes nothing. At the cap it clears out what is over; only if the live records fill the
   cap by themselves does it cost one of them, the least recently updated, or none if that is under the empty key.
   */
  lemma RoomCosts(cfg: Config, t: Table, u: Table, now: int)
    requires MakesRoom(cfg, t, u, now)
    ensures var live := LiveKeys(cfg, t, now);
            && (forall k :: k in u ==> k in t && u[k] == t[k])
            && (cfg.maxEntries <= 0 || |t| < cfg.maxEntries ==> u == t)
            && (0 < cfg.maxEntries <= |t| ==> u.Keys <= live)
            && (0 < cfg.maxEntries <= |t| && |live| < cfg.maxEntries ==> u.Keys == live)
            && (forall k :: k in live && k !in u ==>
                  k != "" && |live| >= cfg.maxEntries && (forall j :: j in live ==> t[k].updatedAt <= t[j].updatedAt))
            && (forall j, k :: j in live && k in live && j !in u && k !in u ==> j == k)
            && (0 < cfg.maxEntries <= |live| && u.Keys == live ==>
                  "" in live && forall j :: j in live ==> t[""].updatedAt <= t[j].updatedAt)
  {
    var e, live := DropExpired(cfg, t, now), LiveKeys(cfg, t, now);
    assert e.Keys == live && |e| == |e.Keys|;
    assert forall j :: j in live ==> e[j] == t[j];
    if 0 < cfg.maxEntries <= |live| {
      SmallerKeys(e, t);
      hide DropExpired, LiveKeys, TimeIsUp;
      var k :| k in e && IsOldest(e, k) && u == if k == "" then e else e - {k};
      assert forall j :: j in live ==> t[k].updatedAt <= t[j].updatedAt;
    }
  }

  /** The owner's handler ends without a response to keep. */
  predicate Fails(s: State, a: Action) {
    (a.Panic? || (a.Return? && !a.cacheable)) && At(s, a.r).Handling?
  }

  /**
   After a failed request has closed its record the key is free, and the next live request for it runs the handler.
   */
  lemma FailedRequestFrees(cfg: Config, clock: int, before: seq<Action>, a: Action, q: nat, room: Table, room': Table)
    requires Unlimited(cfg) && Fails(Run(cfg, Start(clock), before), a)
    requires q == a.r || Over(At(Run(cfg, Start(clock), before), q))
    ensures var s := Run(cfg, Start(clock), before);
            var t, key := Step(cfg, Step(cfg, s, a), Commit(a.r, false, room)), At(s, a.r).key;
            && key !in t.table
            && (RoomFor(cfg, t.table, key, room', t.clock) ==>
                  At(Step(cfg, t, Arrive(q, key, false, room')), q) == Handling(key))
  {
    hide Run, RoomFor;
    StartInv(clock);
    RunInv(cfg, Start(clock), before);
    var s := Run(cfg, Start(clock), before);
    var t, key := Step(cfg, Step(cfg, s, a), Commit(a.r, false, room)), At(s, a.r).key;
    assert Owns(At(s, a.r), key) && Marked(s, key);
    if RoomFor(cfg, t.table, key, room', t.clock) {
      RequestIsDecided(cfg, t, q, key, room');
    }
  }

  // ----- sweeping goes unnoticed -----

  /** The record of `k`, unless its time is up. */
  ghost function Fresh(cfg: Config, t: Table, k: string, now: int): Option<Stored> {
    if k in t && !Expired(cfg, t[k], now) then Some(t[k]) else None
  }

  ghost predicate SameFresh(cfg: Config, t: Table, u: Table, now: int) {
    forall k :: Fresh(cfg, t, k, now) == Fresh(cfg, u, k, now)
  }

  /** Two servers with the same requests whose stores differ only in records whose time is up. */
  ghost predicate Alike(cfg: Config, s: State, u: State) {
    s.clock == u.clock && s.requests == u.requests && SameFresh(cfg, s.table, u.table, s.clock)
  }

  /** The same step in an uncapped store, where making room changes nothing. */
  function InRoom(a: Action, t: Table): Action {
    match a
    case Arrive(r, key, cancelled, _) => Arrive(r, key, cancelled, t)
    case Commit(r, cancelled, _) => Commit(r, cancelled, t)
    case _ => a
  }

  lemma LockAlike(cfg: Config, t: Table, u: Table, key: string, now: int)
    requires SameFresh(cfg, t, u, now)
    ensures Lock(cfg, t, key, now).1 == Lock(cfg, u, key, now).1
    ensures SameFresh(cfg, Lock(cfg, t, key, now).0, Lock(cfg, u, key, now).0, now)
  {
    assert Fresh(cfg, t, key, now) == Fresh(cfg, u, key, now);
    forall k
      ensures Fresh(cfg, Lock(cfg, t, key, now).0, k, now) == Fresh(cfg, Lock(cfg, u, key, now).0, k, now)
    {
      assert Fresh(cfg, t, k, now) == Fresh(cfg, u, k, now);
    }
  }

  lemma CloseAlike(cfg: Config, t: Table, u: Table, key: string, p: Payload, now: int)
    requires SameFresh(cfg, t, u, now)
    ensures SameFresh(cfg, Save(t, key, p, now), Save(u, key, p, now), now)
    ensures SameFresh(cfg, Unlock(t, key), Unlock(u, key), now)
  {
    forall k
      ensures Fresh(cfg, Save(t, key, p, now), k, now) == Fresh(cfg, Save(u, key, p, now), k, now)
      ensures Fresh(cfg, Unlock(t, key), k, now) == Fresh(cfg, Unlock(u, key), k, now)
    {
      assert Fresh(cfg, t, k, now) == Fresh(cfg, u, k, now);
    }
  }

  lemma LaterAlike(cfg: Config, t: Table, u: Table, now: int, elapsed: nat)
    requires SameFresh(cfg, t, u, now)
    ensures SameFresh(cfg, t, u, now + elapsed)
  {
    var later := now + elapsed;
    forall k
      ensures Fresh(cfg, t, k, later) == Fresh(cfg, u, k, later)
    {
      assert Fresh(cfg, t, k, now) == Fresh(cfg, u, k, now);
    }
  }

  lemma StepAlike(cfg: Config, s: State, u: State, a: Action)
    requires cfg.maxEntries <= 0 && Alike(cfg, s, u) && !a.Sweep?
    ensures Alike(cfg, Step(cfg, s, InRoom(a, s.table)), Step(cfg, u, InRoom(a, u.table)))
  {
    hide SameFresh, Lock, Save, Unlock, DropExpired;
    match a {
      case Tick(elapsed) => LaterAlike(cfg, s.table, u.table, s.clock, elapsed);
      case Arrive(_, key, _, _) => LockAlike(cfg, s.table, u.table, key, s.clock);
      case Commit(r, _, _) =>
        if At(s, r).Saving? {
          CloseAlike(cfg, s.table, u.table, At(s, r).key, At(s, r).payload, s.clock);
        } else if At(s, r).Unlocking? {
          CloseAlike(cfg, s.table, u.table, At(s, r).key, Payload(0, None, []), s.clock);
        }
      case _ =>
    }
  }

  lemma SweepAlike(cfg: Config, s: State, u: State)
    requires Alike(cfg, s, u)
    ensures Alike(cfg, Step(cfg, s, Sweep), u)
  {
    var t := DropExpired(cfg, s.table, s.clock);
    forall k
      ensures Fresh(cfg, t, k, s.clock) == Fresh(cfg, u.table, k, s.clock)
    {
      assert Fresh(cfg, s.table, k, s.clock) == Fresh(cfg, u.table, k, s.clock);
    }
  }

  /** A run of an uncapped store, with or without its sweeps. */
  ghost function Serve(cfg: Config, sweeps: bool, s: State, actions: seq<Action>): State
    decreases |actions|
  {
    if actions == [] then s
    else if actions[0].Sweep? && !sweeps then Serve(cfg, sweeps, s, actions[1..])
    else Serve(cfg, sweeps, Step(cfg, s, InRoom(actions[0], s.table)), actions[1..])
  }

  /** Every request of every run is treated the same whether or not records are swept: sweeping only frees memory. */
  lemma {:induction false} SweepsGoUnnoticed(cfg: Config, s: State, u: State, actions: seq<Action>)
    requires cfg.maxEntries <= 0 && Alike(cfg, s, u)
    ensures Serve(cfg, true, s, actions).requests == Serve(cfg, false, u, actions).requests
    decreases |actions|
  {
    hide Step, SameFresh;
    if actions != [] {
      if actions[0].Sweep? {
        SweepAlike(cfg, s, u);
        SweepsGoUnnoticed(cfg, Step(cfg, s, Sweep), u, actions[1..]);
      } else {
        StepAlike(cfg, s, u, actions[0]);
        SweepsGoUnnoticed(cfg, Step(cfg, s, InRoom(actions[0], s.table)), Step(cfg, u, InRoom(actions[0], u.table)),
                          actions[1..]);
      }
    }
  }
}
