/** The two store calls of one request through the middleware, as steps of the interleaving model. */
module Middleware {
  import opened Common
  import opened MemoryModel
  import S = MemoryStore

  /** What a replay writes to the client. */
  method Serve(response: S.Response) returns (p: Payload)
    requires response.Valid()
    ensures p == response.View()
  {
    var headers := None;
    if response.headers.Some? {
      var h := response.headers.value;
      headers := Some(map k | k in h :: h[k][..]);
    }
    p := Payload(response.statusCode, headers, response.body[..]);
  }

  /** The first half, up to the handler: a step of the model, for every state that has this table and clock. */
  method Begin(s: S.Store, key: string, cancelled: bool, now: int, ghost st: State, ghost r: nat) returns (q: Request)
    requires s.Valid()
    requires st.table == s.View() && st.clock == now && Over(At(st, r))
    modifies s
    ensures s.Valid() && s.repr == old(s.repr)
    ensures exists room :: RoomFor(s.cfg, st.table, key, room, now)
                           && Step(s.cfg, st, Arrive(r, key, cancelled, room)) == Put(st.(table := s.View()), r, q)
  {
    hide S.DataOk, S.DataView, MakesRoom, Expired;
    var outcome := s.Lock(key, cancelled, now);
    ghost var room := st.table;
    if !cancelled && key !in st.table {
      room :| MakesRoom(s.cfg, st.table, room, now) && s.View() == room[key := Stored(InProgress, now)];
      RoomKeys(s.cfg, st.table, room, now);
    } else if key !in st.table {
      room := SomeRoom(s.cfg, st.table, now);
    }
    assert RoomFor(s.cfg, st.table, key, room, now);
    match outcome {
      case Refused => q := StoreError;
      case Granted => q := Handling(key);
      case Busy => q := Conflict(key);
      case Replay(response) =>
        var p := Serve(response);
        q := Served(key, p);
    }
    assert Step(s.cfg, st, Arrive(r, key, cancelled, room)) == Put(st.(table := s.View()), r, q);
  }

  /** The closing steps of a request, put together. */
  lemma ClosingSteps(cfg: Config, st: State, r: nat, key: string, handled: Action, cancelled: bool, room: Table)
    requires At(st, r) == Handling(key) && (handled == Panic(r) || (handled.Return? && handled.r == r))
    requires RoomFor(cfg, st.table, key, room, st.clock)
    ensures var t := if cancelled then st.table
                     else if handled.Return? && handled.cacheable then Save(room, key, handled.payload, st.clock)
                     else Unlock(st.table, key);
            Step(cfg, Step(cfg, st, handled), Commit(r, cancelled, room)) == Put(st.(table := t), r, Absent)
  {
    hide RoomFor;
  }

  /** The second half: the handler has panicked or has left its response in the recorder. */
  method Finish(s: S.Store, key: string, panicked: bool, recorded: S.Response, matches: int -> bool, cancelled: bool,
                now: int, ghost st: State, ghost r: nat)
    requires s.Valid() && recorded.Valid() && s !in recorded.repr
    requires st.table == s.View() && st.clock == now && At(st, r) == Handling(key)
    modifies s
    ensures s.Valid()
    ensures var handled := if panicked then Panic(r)
                           else Return(r, old(recorded.View()), matches(old(recorded.statusCode)));
            exists room :: RoomFor(s.cfg, st.table, key, room, now)
                           && Step(s.cfg, Step(s.cfg, st, handled), Commit(r, cancelled, room)) ==
                              Put(st.(table := s.View()), r, Absent)
  {
    hide S.DataOk, S.DataView, MakesRoom, Step;
    ghost var room, p := st.table, recorded.View();
    ghost var handled := if panicked then Panic(r) else Return(r, p, matches(recorded.statusCode));
    if !panicked && matches(recorded.statusCode) {
      var _ := s.Save(key, recorded, cancelled, now);
      if !cancelled && key !in st.table {
        room :| MakesRoom(s.cfg, st.table, room, now) && s.View() == Save(room, key, p, now);
      } else if key !in st.table {
        room := SomeRoom(s.cfg, st.table, now);
      }
    } else {
      var _ := s.Unlock(key, cancelled);
      if key !in st.table {
        room := SomeRoom(s.cfg, st.table, now);
      }
    }
    ClosingSteps(s.cfg, st, r, key, handled, cancelled, room);
    assert RoomFor(s.cfg, st.table, key, room, now);
  }

  /** Room can always be made in some way. */
  lemma SomeRoom(cfg: Config, t: Table, now: int) returns (room: Table)
    ensures MakesRoom(cfg, t, room, now)
  {
    hide DropExpired;
    var e := DropExpired(cfg, t, now);
    room := if cfg.maxEntries <= 0 || |t| < cfg.maxEntries then t else e;
    if !(cfg.maxEntries <= 0 || |t| < cfg.maxEntries) && |e| >= cfg.maxEntries {
      var k := AnOldest(e);
      room := if k == "" then e else e - {k};
    }
  }

  /** A request that fails and a retry of it: both run the handler, capped or not. */
  method FailAndRetry(s: S.Store, key: string, panicked: bool, recorded: S.Response, matches: int -> bool,
                      start: int, end: int, later: int) returns (first: Request, retry: Request)
    requires s.Valid() && recorded.Valid() && s !in recorded.repr && key !in s.View()
    requires panicked || !matches(recorded.statusCode)
    modifies s
    ensures s.Valid() && first == Handling(key) && retry == Handling(key)
  {
    hide S.DataOk, S.DataView, MakesRoom, RoomFor, Step;
    ghost var st := State(start, s.View(), map[]);
    first := Begin(s, key, false, start, st, 0);
    FirstIsLetIn(s.cfg, st, key, first, s.View());
    ghost var mid := State(end, s.View(), map[0 := Handling(key)]);
    Finish(s, key, panicked, recorded, matches, false, end, mid, 0);
    FailureFrees(s.cfg, mid, key, panicked, recorded.View(), s.View());
    ghost var st' := State(later, s.View(), map[]);
    retry := Begin(s, key, false, later, st', 0);
    FirstIsLetIn(s.cfg, st', key, retry, s.View());
  }

  lemma FirstIsLetIn(cfg: Config, st: State, key: string, q: Request, after: Table)
    requires key !in st.table && Over(At(st, 0))
    requires exists room :: RoomFor(cfg, st.table, key, room, st.clock)
                            && Step(cfg, st, Arrive(0, key, false, room)) == Put(st.(table := after), 0, q)
    ensures q == Handling(key) && key in after && after[key].status.InProgress?
  {
    hide Step, RoomFor;
    var room :| RoomFor(cfg, st.table, key, room, st.clock)
                && Step(cfg, st, Arrive(0, key, false, room)) == Put(st.(table := after), 0, q);
    RequestIsDecided(cfg, st, 0, key, room);
    assert At(Put(st.(table := after), 0, q), 0) == q;
  }

  lemma FailureFrees(cfg: Config, st: State, key: string, panicked: bool, p: Payload, after: Table)
    requires At(st, 0) == Handling(key) && key in st.table && st.table[key].status.InProgress?
    requires var handled := if panicked then Panic(0) else Return(0, p, false);
             exists room :: RoomFor(cfg, st.table, key, room, st.clock)
                            && Step(cfg, Step(cfg, st, handled), Commit(0, false, room)) ==
                               Put(st.(table := after), 0, Absent)
    ensures key !in after
  {
    hide RoomFor;
    var handled := if panicked then Panic(0) else Return(0, p, false);
    var room :| RoomFor(cfg, st.table, key, room, st.clock)
                && Step(cfg, Step(cfg, st, handled), Commit(0, false, room)) == Put(st.(table := after), 0, Absent);
  }
}
