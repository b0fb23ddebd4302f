/** The in-memory idempotency store as an object: responses live on the heap and are copied in and out. */
module MemoryStore {
  import opened Common
  import opened MemoryModel

  /** A response whose body and header values are shared slices; a nil header map is None. */
  class Response {
    var statusCode: int
    var headers: Option<map<string, array<string>>>
    var body: array<bv8>
    ghost var repr: set<object>

    ghost predicate Valid()
      reads this
    {
      && body in repr
      && (headers.Some? ==> forall k :: k in headers.value ==> headers.value[k] in repr)
    }

    ghost function View(): Payload
      requires Valid()
      reads this, repr
    {
      Payload(statusCode,
              if headers.None? then None else Some(map k | k in headers.value :: headers.value[k][..]),
              body[..])
    }

    constructor (statusCode: int, headers: Option<map<string, array<string>>>, body: array<bv8>,
                 ghost repr: set<object>)
      requires body in repr && (headers.Some? ==> forall k :: k in headers.value ==> headers.value[k] in repr)
      ensures Valid() && this.repr == repr
      ensures this.statusCode == statusCode && this.headers == headers && this.body == body
    {
      this.statusCode, this.headers, this.body := statusCode, headers, body;
      this.repr := repr;
    }
  }

  method CopySlice<T>(a: array<T>) returns (b: array<T>)
    ensures fresh(b) && b[..] == a[..]
  {
    b := new T[a.Length](i requires 0 <= i < a.Length reads a => a[i]);
  }

  method CopyHeaders(headers: map<string, array<string>>)
    returns (copied: map<string, array<string>>, ghost parts: set<object>)
    ensures copied.Keys == headers.Keys && fresh(parts)
    ensures forall k :: k in copied ==> copied[k] in parts && copied[k][..] == headers[k][..]
  {
    copied, parts := map[], {};
    var left := headers.Keys;
    while left != {}
      invariant left <= headers.Keys && copied.Keys == headers.Keys - left && fresh(parts)
      invariant forall k :: k in copied ==> copied[k] in parts && copied[k][..] == headers[k][..]
      decreases left
    {
      var k :| k in left;
      var b := CopySlice(headers[k]);
      copied, parts := copied[k := b], parts + {b};
      left := left - {k};
    }
  }

  /** The copy has the same contents and shares nothing with the original. */
  method DeepCopy(res: Response) returns (c: Response)
    requires res.Valid()
    ensures fresh(c) && fresh(c.repr) && c.Valid() && c.View() == res.View()
  {
    var body := CopySlice(res.body);
    if res.headers.None? {
      c := new Response(res.statusCode, None, body, {body});
    } else {
      var headers, parts := CopyHeaders(res.headers.value);
      c := new Response(res.statusCode, Some(headers), body, parts + {body});
      assert c.View().headers.value == res.View().headers.value;
    }
  }

  datatype Rec = Rec(completed: bool, response: Response?, updatedAt: int)

  /** A record is completed exactly when it holds a response, and its response belongs to the store. */
  ghost predicate RecOk(r: Rec, repr: set<object>)
    reads repr
  {
    (r.completed <==> r.response != null)
    && (r.response != null ==> r.response in repr && r.response.repr <= repr && r.response.Valid())
  }

  ghost function RecView(r: Rec, repr: set<object>): Stored
    requires RecOk(r, repr)
    reads repr
  {
    Stored(if r.response == null then InProgress else Completed(r.response.View()), r.updatedAt)
  }

  ghost predicate DataOk(data: map<string, Rec>, repr: set<object>)
    reads repr
  {
    forall k :: k in data ==> RecOk(data[k], repr)
  }

  ghost function DataView(data: map<string, Rec>, repr: set<object>): (t: Table)
    requires DataOk(data, repr)
    reads repr
    ensures t.Keys == data.Keys && forall k :: k in data ==> t[k] == RecView(data[k], repr)
  {
    map k | k in data :: RecView(data[k], repr)
  }

  class Store {
    const cfg: Config
    var data: map<string, Rec>
    ghost var repr: set<object>

    ghost predicate Valid()
      reads this, repr
    {
      this !in repr && DataOk(data, repr)
    }

    ghost function View(): Table
      requires Valid()
      reads this, repr
    {
      DataView(data, repr)
    }

    constructor (cfg: Config)
      ensures Valid() && View() == map[] && repr == {}
      ensures this.cfg == cfg
    {
      this.cfg, data, repr := cfg, map[], {};
    }

    predicate IsExpired(r: Rec, now: int) {
      || (cfg.responseTTL > 0 && r.completed && now - r.updatedAt > cfg.responseTTL)
      || (cfg.lockTTL > 0 && !r.completed && now - r.updatedAt > cfg.lockTTL)
    }

    method EvictExpired(now: int) returns (evicted: nat)
      requires Valid()
      modifies this`data
      ensures Valid() && View() == DropExpired(cfg, old(View()), now)
      ensures evicted == |old(data)| - |data| && data.Keys <= old(data).Keys
    {
      hide DataOk, IsExpired, DropExpired;
      evicted := 0;
      var left := data.Keys;
      while left != {}
        invariant left <= data.Keys <= old(data).Keys && evicted == |old(data)| - |data|
        invariant forall k :: k in data ==> data[k] == old(data)[k]
        invariant forall k :: k in data && k !in left ==> !IsExpired(data[k], now)
        invariant forall k :: k in old(data) && k !in data ==> IsExpired(old(data)[k], now)
        decreases left
      {
        var k :| k in left;
        if IsExpired(data[k], now) {
          assert (data - {k}).Keys == data.Keys - {k} && |data| == |data.Keys|;
          data := data - {k};
          evicted := evicted + 1;
        }
        left := left - {k};
      }
      FilteredView(old(data), now);
    }

    lemma FilteredView(was: map<string, Rec>, now: int)
      requires DataOk(was, repr) && data.Keys <= was.Keys
      requires forall k :: k in data ==> data[k] == was[k] && !IsExpired(data[k], now)
      requires forall k :: k in was && k !in data ==> IsExpired(was[k], now)
      ensures DataOk(data, repr) && DataView(data, repr) == DropExpired(cfg, DataView(was, repr), now)
    {
      forall k | k in was
        ensures RecOk(was[k], repr) && (IsExpired(was[k], now) <==> Expired(cfg, RecView(was[k], repr), now))
      {
        RecAt(was, repr, k);
      }
    }

    method EvictOldest()
      requires Valid()
      modifies this`data
      ensures Valid() && DropsOldest(old(View()), View()) && data.Keys <= old(data).Keys
    {
      var oldestKey, oldestTime, first, left := "", 0, true, data.Keys;
      while left != {}
        invariant left <= data.Keys && data == old(data) && (first <==> left == data.Keys)
        invariant !first ==> oldestKey in data && oldestTime == data[oldestKey].updatedAt
        invariant !first ==> forall k :: k in data && k !in left ==> oldestTime <= data[k].updatedAt
        invariant first ==> oldestKey == ""
        decreases left
      {
        var k :| k in left;
        if first || data[k].updatedAt < oldestTime {
          oldestKey, oldestTime, first := k, data[k].updatedAt, false;
        }
        left := left - {k};
      }
      ghost var t := View();
      assert !first ==> IsOldest(t, oldestKey);
      if oldestKey != "" {
        data := data - {oldestKey};
        assert View() == t - {oldestKey};
      }
    }

    /** Lock and Save both make room in this way before they insert. */
    method MakeRoom(now: int)
      requires Valid()
      modifies this`data
      ensures Valid() && MakesRoom(cfg, old(View()), View(), now)
      ensures data.Keys <= old(data).Keys
    {
      hide DropExpired, DropsOldest, DataOk;
      assert |data| == |data.Keys| == |View().Keys| == |View()|;
      if cfg.maxEntries > 0 && |data| >= cfg.maxEntries {
        var _ := EvictExpired(now);
        assert |data| == |data.Keys| == |View().Keys| == |View()|;
        if |data| >= cfg.maxEntries {
          EvictOldest();
        }
      }
    }

    method Lock(key: string, cancelled: bool, now: int) returns (outcome: Outcome)
      requires Valid()
      modifies this
      ensures Valid() && repr == old(repr)
      ensures outcome.Replay? ==> fresh(outcome.response) && fresh(outcome.response.repr) && outcome.response.Valid()
      ensures cancelled <==> outcome.Refused?
      ensures cancelled ==> View() == old(View())
      ensures !cancelled && key in old(View()) ==>
                (View(), Said(outcome)) == MemoryModel.Lock(cfg, old(View()), key, now)
      ensures !cancelled && key !in old(View()) ==>
                outcome == Granted && key in View() && View()[key] == Stored(InProgress, now)
                && exists u :: MakesRoom(cfg, old(View()), u, now)
                        && View() == u[key := Stored(InProgress, now)]
    {
      hide MakesRoom, DataOk;
      if cancelled {
        return Refused;
      }
      if key in data {
        var rec := data[key];
        RecAt(data, repr, key);
        if IsExpired(rec, now) {
          PutView(data, repr, key, Rec(false, null, now));
          data := data[key := Rec(false, null, now)];
          return Granted;
        }
        if rec.response == null {
          return Busy;
        }
        var copied := DeepCopy(rec.response);
        return Replay(copied);
      }
      MakeRoom(now);
      ghost var u := View();
      PutView(data, repr, key, Rec(false, null, now));
      data := data[key := Rec(false, null, now)];
      return Granted;
    }

    /** The saved response is a copy: whatever the store newly owns was allocated here. */
    method Save(key: string, response: Response, cancelled: bool, now: int) returns (ok: bool)
      requires Valid() && response.Valid() && this !in response.repr
      modifies this
      ensures Valid() && old(repr) <= repr && fresh(repr - old(repr))
      ensures ok <==> !cancelled
      ensures cancelled ==> View() == old(View())
      ensures ok && key in old(View()) ==> View() == MemoryModel.Save(old(View()), key, old(response.View()), now)
      ensures ok && key !in old(View()) ==>
                exists u :: MakesRoom(cfg, old(View()), u, now)
                            && View() == MemoryModel.Save(u, key, old(response.View()), now)
    {
      hide MakesRoom, DataOk, DataView;
      if cancelled {
        return false;
      }
      if key !in data {
        MakeRoom(now);
      }
      ghost var u := View();
      var copied := DeepCopy(response);
      assert View() == u && copied.View() == old(response.View());
      StoreCopy(key, copied, now);
      return true;
    }

    method StoreCopy(key: string, copied: Response, now: int)
      requires Valid() && copied.Valid() && this !in copied.repr
      modifies this
      ensures Valid() && repr == old(repr) + {copied} + copied.repr
      ensures View() == MemoryModel.Save(old(View()), key, copied.View(), now)
    {
      hide DataOk;
      ghost var grown := repr + {copied} + copied.repr;
      GrowView(data, repr, grown);
      PutView(data, grown, key, Rec(true, copied, now));
      data, repr := data[key := Rec(true, copied, now)], grown;
    }

    method Unlock(key: string, cancelled: bool) returns (ok: bool)
      requires Valid()
      modifies this`data
      ensures Valid() && (ok <==> !cancelled)
      ensures View() == if ok then MemoryModel.Unlock(old(View()), key) else old(View())
    {
      hide DataOk;
      ok := !cancelled;
      if ok && key in data {
        RecAt(data, repr, key);
        if !data[key].completed {
          DropView(data, repr, key);
          data := data - {key};
        }
      }
    }

    method Delete(key: string, cancelled: bool) returns (ok: bool)
      requires Valid()
      modifies this`data
      ensures Valid() && (ok <==> !cancelled)
      ensures View() == if ok then old(View()) - {key} else old(View())
    {
      hide DataOk;
      ok := !cancelled;
      if ok {
        DropView(data, repr, key);
        data := data - {key};
      }
    }

    method Len() returns (n: nat)
      requires Valid()
      ensures n == |View()|
    {
      assert |data| == |data.Keys| == |View().Keys| == |View()|;
      n := |data|;
    }
  }

  /** What Lock tells its caller; a replayed response is a copy. */
  datatype Outcome = Refused | Granted | Busy | Replay(response: Response)

  ghost function Said(o: Outcome): Answer
    requires !o.Refused? && (o.Replay? ==> o.response.Valid())
    reads if o.Replay? then {o.response} + o.response.repr else {}
  {
    match o
    case Granted => Acquired
    case Busy => Exists(InProgress)
    case Replay(r) => Exists(Completed(r.View()))
    case Refused => Acquired
  }

  lemma RecAt(data: map<string, Rec>, repr: set<object>, key: string)
    requires DataOk(data, repr) && key in data
    ensures RecOk(data[key], repr) && DataView(data, repr)[key] == RecView(data[key], repr)
  {
  }

  lemma PutView(data: map<string, Rec>, repr: set<object>, key: string, r: Rec)
    requires DataOk(data, repr) && RecOk(r, repr)
    ensures DataOk(data[key := r], repr)
    ensures DataView(data[key := r], repr) == DataView(data, repr)[key := RecView(r, repr)]
  {
    hide RecView;
  }

  lemma GrowView(data: map<string, Rec>, repr: set<object>, grown: set<object>)
    requires DataOk(data, repr) && repr <= grown
    ensures DataOk(data, grown) && DataView(data, grown) == DataView(data, repr)
  {
  }

  lemma DropView(data: map<string, Rec>, repr: set<object>, key: string)
    requires DataOk(data, repr)
    ensures DataOk(data - {key}, repr) && DataView(data - {key}, repr) == DataView(data, repr) - {key}
  {
    hide RecView;
  }

  // ----- isolation -----

  /** A caller changing a response it holds. Its contract allows any change to any part of the response. */
  method Scribble(r: Response)
    requires r.Valid()
    modifies r, r.repr
  {
    var body := r.body;
    for i := 0 to body.Length
      modifies body
    {
      body[i] := !body[i];
    }
    r.statusCode, r.headers := r.statusCode + 1, None;
  }

  ghost predicate Holds(t: Table, key: string, payload: Payload, savedAt: int) {
    key in t && t[key] == Stored(Completed(payload), savedAt)
  }

  lemma HeldIsReplayed(cfg: Config, t: Table, key: string, payload: Payload, savedAt: int, now: int, u: Table,
                       o: Outcome)
    requires Holds(t, key, payload, savedAt) && InRetention(cfg, savedAt, now)
    requires !o.Refused? && (o.Replay? ==> o.response.Valid()) && (u, Said(o)) == MemoryModel.Lock(cfg, t, key, now)
    ensures u == t && o.Replay? && o.response.View() == payload
  {
  }

  /** A Lock within the retention of a saved response answers with a fresh copy of it. */
  method LockReplays(s: Store, key: string, ghost payload: Payload, ghost savedAt: int, now: int) returns (r: Response)
    requires s.Valid() && Holds(s.View(), key, payload, savedAt) && InRetention(s.cfg, savedAt, now)
    modifies s
    ensures s.Valid() && s.repr == old(s.repr) && s.View() == old(s.View())
    ensures fresh(r) && fresh(r.repr) && r.Valid() && r.View() == payload
  {
    hide MakesRoom, DataOk, DataView, MemoryModel.Lock, InRetention;
    ghost var t := s.View();
    var outcome := s.Lock(key, false, now);
    HeldIsReplayed(s.cfg, t, key, payload, savedAt, now, s.View(), outcome);
    r := outcome.response;
  }

  method SaveAndScribble(s: Store, key: string, r: Response, now: int)
    requires s.Valid() && r.Valid() && r !in s.repr && r.repr !! s.repr && s !in r.repr
    modifies s, r, r.repr
    ensures s.Valid() && Holds(s.View(), key, old(r.View()), now)
  {
    hide MakesRoom, DataOk, DataView;
    var _ := s.Save(key, r, false, now);
    assert Holds(s.View(), key, old(r.View()), now);
    Scribble(r);
  }

  /** Neither the argument of Save nor a response that Lock returned gives a caller a way into the store. */
  method SaveIsolates(s: Store, key: string, r: Response, now: int, later: int, last: int) returns (replayed: Response)
    requires s.Valid() && r.Valid() && r !in s.repr && r.repr !! s.repr && s !in r.repr
    requires InRetention(s.cfg, now, later) && InRetention(s.cfg, now, last)
    modifies s, r, r.repr
    ensures fresh(replayed) && replayed.Valid() && replayed.View() == old(r.View())
    ensures s.Valid() && Holds(s.View(), key, old(r.View()), now)
  {
    hide DataOk, DataView, InRetention, Holds;
    ghost var payload := r.View();
    SaveAndScribble(s, key, r, now);
    replayed := LockReplays(s, key, payload, now, later);
    Scribble(replayed);
    replayed := LockReplays(s, key, payload, now, last);
  }

  // ----- the cap on entries -----

  /** What is left without the expired records, and whether evictOldest is sure to bring that below the cap. */
  ghost predicate OneTooMany(cfg: Config, t: Table, now: int) {
    var e := DropExpired(cfg, t, now);
    |e| == cfg.maxEntries && !("" in e && IsOldest(e, ""))
  }

  /**
   A store makes room in every choice of evictOldest exactly when it has room already, or expired records to spare, or
   is just full of live records of which the empty key is not the oldest.
   */
  lemma RoomIffEmptyKeyNotOldest(cfg: Config, t: Table, now: int)
    requires 0 < cfg.maxEntries
    ensures (forall u :: MakesRoom(cfg, t, u, now) ==> |u| < cfg.maxEntries) <==>
            |t| < cfg.maxEntries || |DropExpired(cfg, t, now)| < cfg.maxEntries || OneTooMany(cfg, t, now)
  {
    hide IsOldest;
    var e := DropExpired(cfg, t, now);
    assert e.Keys <= t.Keys;
    SmallerKeys(e, t);
    if |e| < cfg.maxEntries || OneTooMany(cfg, t, now) {
      forall u | MakesRoom(cfg, t, u, now)
        ensures |u| < cfg.maxEntries
      {
        if |e| >= cfg.maxEntries {
          DropsOne(e, u);
        }
      }
    } else if "" in e && IsOldest(e, "") {
      assert MakesRoom(cfg, t, e, now);
    } else {
      var k := AnOldest(e);
      var u := if k == "" then e else e - {k};
      DropsOne(e, u);
      assert MakesRoom(cfg, t, u, now);
    }
  }

  lemma DropsOne(e: Table, u: Table)
    requires DropsOldest(e, u) && e != map[] && !("" in e && IsOldest(e, ""))
    ensures |u| == |e| - 1
  {
    var k :| k in e && IsOldest(e, k) && u == if k == "" then e else e - {k};
    assert u.Keys == e.Keys - {k} && |u| == |u.Keys| && |e| == |e.Keys|;
  }

  /** The documented bound, for tables without the empty key. */
  ghost predicate WithinCap(cfg: Config, t: Table) {
    "" !in t && (cfg.maxEntries > 0 ==> |t| <= cfg.maxEntries)
  }

  /** A nonempty key keeps the bound, whether it is inserted or overwritten. */
  lemma CapIsKept(cfg: Config, t: Table, u: Table, key: string, r: Stored, now: int)
    requires WithinCap(cfg, t) && key != ""
            && (if key in t then u == t else MakesRoom(cfg, t, u, now))
    ensures WithinCap(cfg, u[key := r])
  {
    hide MakesRoom;
    if key in t {
      assert u[key := r].Keys == u.Keys;
      SmallerKeys(u[key := r], u);
    } else {
      RoomForOne(cfg, t, u, now);
      assert u[key := r].Keys == u.Keys + {key} && |u[key := r]| == |u[key := r].Keys| && |u| == |u.Keys|;
    }
  }

  lemma RoomForOne(cfg: Config, t: Table, u: Table, now: int)
    requires WithinCap(cfg, t) && MakesRoom(cfg, t, u, now)
    ensures "" !in u && (cfg.maxEntries > 0 ==> |u| < cfg.maxEntries)
  {
    hide MakesRoom, DropExpired, IsOldest;
    RoomKeys(cfg, t, u, now);
    if cfg.maxEntries > 0 {
      DroppedKeys(cfg, t, now);
      SmallerKeys(DropExpired(cfg, t, now), t);
      RoomIffEmptyKeyNotOldest(cfg, t, now);
    }
  }

  /** Removing records keeps it as well. */
  lemma CapIsKeptByRemoval(cfg: Config, t: Table, u: Table)
    requires WithinCap(cfg, t) && u.Keys <= t.Keys
    ensures WithinCap(cfg, u)
  {
    SmallerKeys(u, t);
  }

  datatype Op =
    | LockOp(key: string, cancelled: bool, now: int)
    | SaveOp(key: string, response: Response, cancelled: bool, now: int)
    | UnlockOp(key: string, cancelled: bool)
    | DeleteOp(key: string, cancelled: bool)
    | SweepOp(now: int)

  /** The call can be made: the key is not empty, and a response to be saved is a response. */
  ghost predicate Callable(s: Store, op: Op)
    reads if op.SaveOp? then {op.response} else {}
  {
    (op.SweepOp? || op.key != "") && (op.SaveOp? ==> op.response.Valid() && s !in op.response.repr)
  }

  /** One call on nonempty keys keeps the store within its cap. */
  method Do(s: Store, op: Op)
    requires s.Valid() && Callable(s, op) && WithinCap(s.cfg, s.View())
    modifies s
    ensures s.Valid() && WithinCap(s.cfg, s.View())
  {
    hide MakesRoom, DropExpired, DataOk, DataView, WithinCap, MemoryModel.Lock;
    ghost var t := s.View();
    match op {
      case LockOp(key, cancelled, now) =>
        var _ := s.Lock(key, cancelled, now);
        LockWithinCap(s.cfg, t, s.View(), key, cancelled, now);
      case SaveOp(key, response, cancelled, now) =>
        ghost var r := Stored(Completed(response.View()), now);
        var _ := s.Save(key, response, cancelled, now);
        if !cancelled {
          PutWithinCap(s.cfg, t, s.View(), key, r, now);
        }
      case UnlockOp(key, cancelled) =>
        var _ := s.Unlock(key, cancelled);
        CapIsKeptByRemoval(s.cfg, t, s.View());
      case DeleteOp(key, cancelled) =>
        var _ := s.Delete(key, cancelled);
        CapIsKeptByRemoval(s.cfg, t, s.View());
      case SweepOp(now) =>
        var _ := s.EvictExpired(now);
        DroppedKeys(s.cfg, t, now);
        CapIsKeptByRemoval(s.cfg, t, s.View());
    }
  }

  /** A record is written, after making room if its key is new. */
  ghost predicate Writes(cfg: Config, t: Table, u: Table, key: string, r: Stored, now: int) {
    if key in t then u == t[key := r]
    else exists room :: MakesRoom(cfg, t, room, now) && u == room[key := r]
  }

  lemma PutWithinCap(cfg: Config, t: Table, u: Table, key: string, r: Stored, now: int)
    requires WithinCap(cfg, t) && key != "" && Writes(cfg, t, u, key, r, now)
    ensures WithinCap(cfg, u)
  {
    hide MakesRoom, WithinCap;
    if key in t {
      CapIsKept(cfg, t, t, key, r, now);
    } else {
      var room :| MakesRoom(cfg, t, room, now) && u == room[key := r];
      CapIsKept(cfg, t, room, key, r, now);
    }
  }

  lemma LockWithinCap(cfg: Config, t: Table, u: Table, key: string, cancelled: bool, now: int)
    requires WithinCap(cfg, t) && key != ""
    requires cancelled ==> u == t
    requires !cancelled && key in t ==> u == MemoryModel.Lock(cfg, t, key, now).0
    requires !cancelled && key !in t ==> Writes(cfg, t, u, key, Stored(InProgress, now), now)
    ensures WithinCap(cfg, u)
  {
    hide MakesRoom, WithinCap;
    if u != t {
      PutWithinCap(cfg, t, u, key, Stored(InProgress, now), now);
    }
  }

  /** Driven through any list of calls on nonempty keys, a store never holds more than maxEntries records. */
  method Drive(cfg: Config, ops: seq<Op>) returns (s: Store, len: nat)
    requires forall i :: 0 <= i < |ops| ==> (ops[i].SweepOp? || ops[i].key != "")
    requires forall i :: 0 <= i < |ops| && ops[i].SaveOp? ==> ops[i].response.Valid()
    ensures s.Valid() && s.cfg == cfg && len == |s.View()|
    ensures cfg.maxEntries > 0 ==> len <= cfg.maxEntries
  {
    hide WithinCap, DataOk;
    s := new Store(cfg);
    EmptyWithinCap(cfg);
    for i := 0 to |ops|
      invariant s.Valid() && fresh(s) && s.cfg == cfg && WithinCap(cfg, s.View())
      invariant forall j :: 0 <= j < |ops| && ops[j].SaveOp? ==> ops[j].response.Valid() && s !in ops[j].response.repr
    {
      Do(s, ops[i]);
    }
    len := s.Len();
    CapBounds(cfg, s.View());
  }

  lemma EmptyWithinCap(cfg: Config)
    ensures WithinCap(cfg, map[])
  {
  }

  lemma CapBounds(cfg: Config, t: Table)
    requires WithinCap(cfg, t)
    ensures cfg.maxEntries > 0 ==> |t| <= cfg.maxEntries
  {
  }

  /** A store capped at one entry that holds the empty key grows to two. */
  lemma EmptyKeyOverflows(cfg: Config, now: int, u: Table, r: Stored)
    requires cfg.maxEntries == 1 && MakesRoom(cfg, map["" := Stored(InProgress, now)], u, now)
    ensures |u["a" := r]| == 2
  {
    var t: Table := map["" := Stored(InProgress, now)];
    assert cfg.lockTTL > 0 ==> !(now - now > cfg.lockTTL);
    assert DropExpired(cfg, t, now) == t;
    assert u == t;
    assert u["a" := r].Keys == {"", "a"};
    assert |u["a" := r]| == |u["a" := r].Keys|;
  }
}
