/** The sliding-window counter: what it admits per window, and how its weighted estimate moves. */
module SlidingWindow {

  /** `index` numbers the aligned window that starts at `index * window`. */
  datatype Entry = Entry(index: int, curr: int, prev: int)

  datatype Settings = Config(limit: int, window: int, idleTimeout: int, gcInterval: int)

  /** The constructor replaces settings that are not positive. */
  type Config = c: Settings | 0 < c.limit && 0 < c.window && 0 < c.idleTimeout && 0 < c.gcInterval
    witness Config(1, 1, 1, 1)

  function Blank(cfg: Config, now: int): Entry
  {
    Entry(now / cfg.window, 0, 0)
  }

  function Advance(cfg: Config, e: Entry, now: int): Entry
  {
    var i := now / cfg.window;
    if i == e.index then e
    else if i == e.index + 1 then Entry(i, 0, e.curr)
    else if i > e.index + 1 then Entry(i, 0, 0)
    else e
  }

  /** How much of the window of `now` lies ahead: the weight of the previous window, times `window`. */
  function Ahead(cfg: Config, now: int): (r: int)
    ensures 0 < r <= cfg.window
  {
    cfg.window - now % cfg.window
  }

  /** The weighted estimate times `window`, which makes it an exact integer, of an entry advanced to `now`. */
  function Scaled(cfg: Config, e: Entry, now: int): int
  {
    e.prev * Ahead(cfg, now) + e.curr * cfg.window
  }

  /** The integer part of the estimate. */
  function Used(cfg: Config, e: Entry, now: int): int
  {
    Scaled(cfg, e, now) / cfg.window
  }

  function AllowN(cfg: Config, e: Entry, n: int, now: int): (Entry, bool)
  {
    var a := Advance(cfg, e, now);
    if Used(cfg, a, now) + n > cfg.limit then (a, false) else (a.(curr := a.curr + n), true)
  }

  function Remaining(cfg: Config, e: Entry, now: int): int
  {
    var left := cfg.limit - Used(cfg, Advance(cfg, e, now), now);
    if left < 0 then 0 else left
  }

  ghost predicate Ok(cfg: Config, e: Entry, now: int)
  {
    0 <= e.curr <= cfg.limit && 0 <= e.prev <= cfg.limit && e.index <= now / cfg.window
  }

  // ----- arithmetic -----

  lemma DivBounds(x: int, w: int)
    requires 0 < w
    ensures w * (x / w) <= x < w * (x / w) + w && x % w == x - w * (x / w)
  {
  }

  lemma DivMonotone(x: int, y: int, w: int)
    requires 0 < w && x <= y
    ensures x / w <= y / w
  {
    DivBounds(x, w);
    DivBounds(y, w);
    if y / w < x / w {
      MulMonotone(w, y / w + 1, x / w);
    }
  }

  lemma MulMonotone(w: int, a: int, b: int)
    requires 0 <= w && a <= b
    ensures w * a <= w * b
  {
  }

  lemma MulCancel(w: int, a: int, b: int)
    requires 0 < w && w * a < w * b
    ensures a < b
  {
  }

  lemma DivUnique(x: int, w: int, q: int)
    requires 0 < w && w * q <= x < w * q + w
    ensures x / w == q
  {
    DivBounds(x, w);
    if x / w < q {
      MulMonotone(w, x / w + 1, q);
    } else if q < x / w {
      MulMonotone(w, q + 1, x / w);
    }
  }

  /** The estimate counts the current window in full, and the previous one for at most what it held. */
  lemma UsedBounds(cfg: Config, e: Entry, now: int)
    requires 0 <= e.prev
    ensures e.curr <= Used(cfg, e, now)
    ensures e.prev * Ahead(cfg, now) < cfg.window ==> Used(cfg, e, now) == e.curr
    ensures cfg.window <= e.prev * Ahead(cfg, now) ==> e.curr < Used(cfg, e, now)
  {
    var w, share := cfg.window, e.prev * Ahead(cfg, now);
    MulMonotone(e.prev, 0, Ahead(cfg, now));
    DivUnique(w * e.curr, w, e.curr);
    DivMonotone(w * e.curr, Scaled(cfg, e, now), w);
    if share < w {
      DivUnique(Scaled(cfg, e, now), w, e.curr);
    } else {
      DivUnique(w * e.curr + w, w, e.curr + 1);
      DivMonotone(w * e.curr + w, Scaled(cfg, e, now), w);
    }
  }

  // ----- one step -----

  lemma AdvanceOk(cfg: Config, e: Entry, from: int, now: int)
    requires Ok(cfg, e, from) && from <= now
    ensures Ok(cfg, Advance(cfg, e, now), now) && Advance(cfg, e, now).index == now / cfg.window
  {
    DivMonotone(from, now, cfg.window);
  }

  /** A read in between changes nothing about what comes later. */
  lemma AdvanceTwice(cfg: Config, e: Entry, from: int, now: int, later: int)
    requires Ok(cfg, e, from) && from <= now <= later
    ensures Advance(cfg, Advance(cfg, e, now), later) == Advance(cfg, e, later)
  {
    DivMonotone(from, now, cfg.window);
    DivMonotone(now, later, cfg.window);
  }

  /** An admission stays within the limit of its window and leaves the estimate below limit + 1. */
  lemma AllowStays(cfg: Config, e: Entry, n: int, from: int, now: int)
    requires Ok(cfg, e, from) && from <= now && 0 < n
    ensures var (f, ok) := AllowN(cfg, e, n, now);
            && Ok(cfg, f, now) && f.index == now / cfg.window
            && (ok ==> Scaled(cfg, f, now) < (cfg.limit + 1) * cfg.window)
            && (ok <==> n <= Remaining(cfg, e, now)) && 0 <= Remaining(cfg, e, now) <= cfg.limit
  {
    hide Scaled, Advance;
    var a, w := Advance(cfg, e, now), cfg.window;
    AdvanceOk(cfg, e, from, now);
    UsedBounds(cfg, a, now);
    DivBounds(Scaled(cfg, a, now), w);
    var u := Used(cfg, a, now);
    if u + n <= cfg.limit {
      ScaledAfter(cfg, a, n, now);
      BelowNext(Scaled(cfg, a, now), u, n, cfg.limit, w);
    }
  }

  lemma ScaledAfter(cfg: Config, a: Entry, n: int, now: int)
    ensures Scaled(cfg, a.(curr := a.curr + n), now) == Scaled(cfg, a, now) + n * cfg.window
  {
    assert (a.curr + n) * cfg.window == a.curr * cfg.window + n * cfg.window;
  }

  lemma BelowNext(scaled: int, u: int, n: int, limit: int, w: int)
    requires 0 < w && scaled < w * u + w && u + n <= limit
    ensures scaled + n * w < (limit + 1) * w
  {
    MulMonotone(w, u + n, limit);
    assert w * (u + n) == w * u + n * w;
    assert (limit + 1) * w == w * limit + w;
  }

  /** Between admissions the estimate never rises, across any number of window boundaries, so Remaining never drops. */
  lemma EstimateFalls(cfg: Config, e: Entry, from: int, now: int, later: int)
    requires Ok(cfg, e, from) && from <= now <= later
    ensures Scaled(cfg, Advance(cfg, e, later), later) <= Scaled(cfg, Advance(cfg, e, now), now)
    ensures Remaining(cfg, e, now) <= Remaining(cfg, e, later)
  {
    hide Scaled, Ahead;
    AdvanceOk(cfg, e, from, now);
    AdvanceTwice(cfg, e, from, now, later);
    var a := Advance(cfg, e, now);
    AdvanceOk(cfg, a, now, later);
    var b := Advance(cfg, a, later);
    DivMonotone(now, later, cfg.window);
    ScaledFalls(cfg, a, b, now, later);
    DivMonotone(Scaled(cfg, b, later), Scaled(cfg, a, now), cfg.window);
  }

  /** The three ways of advancing: same window, next window, further on. */
  lemma ScaledFalls(cfg: Config, a: Entry, b: Entry, now: int, later: int)
    requires Ok(cfg, a, now) && a.index == now / cfg.window && now <= later
    requires b == Advance(cfg, a, later) && b.index == later / cfg.window
    ensures Scaled(cfg, b, later) <= Scaled(cfg, a, now)
  {
    var w, x, y := cfg.window, Ahead(cfg, now), Ahead(cfg, later);
    MulMonotone(a.prev, 0, x);
    MulMonotone(w, 0, a.curr);
    if b.index == a.index {
      DivBounds(now, w);
      DivBounds(later, w);
      MulMonotone(a.prev, y, x);
    } else if b.index == a.index + 1 {
      MulMonotone(a.curr, y, w);
    }
  }

  // ----- bounds over a run on one key -----

  datatype Request = Request(at: int, n: int)

  ghost predicate InOrder(requests: seq<Request>, from: int)
    decreases |requests|
  {
    requests == [] || (from <= requests[0].at && InOrder(requests[1..], requests[0].at))
  }

  /** The entry after a request, and what the request is granted. A request for nothing stands for Remaining. */
  ghost function Serve(cfg: Config, e: Entry, q: Request): (Entry, nat)
  {
    if q.n <= 0 then (Advance(cfg, e, q.at), 0)
    else
      var (f, ok) := AllowN(cfg, e, q.n, q.at);
      (f, if ok then q.n else 0)
  }

  /** Granted by requests made in aligned window `i`. */
  ghost function GrantedIn(cfg: Config, e: Entry, requests: seq<Request>, i: int): nat
    decreases |requests|
  {
    if requests == [] then 0
    else
      var (f, n) := Serve(cfg, e, requests[0]);
      (if requests[0].at / cfg.window == i then n else 0) + GrantedIn(cfg, f, requests[1..], i)
  }

  /** Granted by requests made from `lo` to `hi`, both included. */
  ghost function GrantedBetween(cfg: Config, e: Entry, requests: seq<Request>, lo: int, hi: int): nat
    decreases |requests|
  {
    if requests == [] then 0
    else
      var (f, n) := Serve(cfg, e, requests[0]);
      (if lo <= requests[0].at <= hi then n else 0) + GrantedBetween(cfg, f, requests[1..], lo, hi)
  }

  lemma ServeCounts(cfg: Config, e: Entry, q: Request, from: int)
    requires Ok(cfg, e, from) && from <= q.at
    ensures var (f, n) := Serve(cfg, e, q);
            && Ok(cfg, f, q.at)
            && (0 < n ==> f.index == q.at / cfg.window)
            && f.curr == (if f.index == e.index then e.curr else 0) + n
            && e.index <= f.index
  {
    hide Scaled;
    DivMonotone(from, q.at, cfg.window);
    if 0 < q.n {
      AllowStays(cfg, e, q.n, from, q.at);
    }
  }

  /** Every aligned window admits at most `limit`. */
  lemma {:induction false} WindowBound(cfg: Config, e: Entry, requests: seq<Request>, from: int, i: int)
    requires Ok(cfg, e, from) && InOrder(requests, from)
    ensures GrantedIn(cfg, e, requests, i) + (if e.index == i then e.curr else 0) <= cfg.limit
    ensures i < e.index ==> GrantedIn(cfg, e, requests, i) == 0
    decreases |requests|
  {
    hide Ok, AllowN;
    if requests == [] {
      OkCurr(cfg, e, from);
    } else {
      var q := requests[0];
      var (f, n) := Serve(cfg, e, q);
      ServeCounts(cfg, e, q, from);
      OkCurr(cfg, e, from);
      OkCurr(cfg, f, q.at);
      WindowBound(cfg, f, requests[1..], q.at, i);
    }
  }

  lemma OkCurr(cfg: Config, e: Entry, now: int)
    requires Ok(cfg, e, now)
    ensures 0 <= e.curr <= cfg.limit && 0 <= e.prev <= cfg.limit
  {
  }

  lemma ServeEstimate(cfg: Config, e: Entry, q: Request, from: int)
    requires Ok(cfg, e, from) && from <= q.at
    ensures var (f, n) := Serve(cfg, e, q);
            && (f.index == e.index ==> f.prev == e.prev)
            && (f.index == e.index + 1 ==> f.prev == e.curr)
            && (0 < n ==> Scaled(cfg, f, q.at) < (cfg.limit + 1) * cfg.window)
  {
    hide Scaled;
    DivMonotone(from, q.at, cfg.window);
    if 0 < q.n {
      AllowStays(cfg, e, q.n, from, q.at);
    }
  }

  /** The entry after a run of requests. */
  ghost function After(cfg: Config, e: Entry, requests: seq<Request>): Entry
    decreases |requests|
  {
    if requests == [] then e else After(cfg, Serve(cfg, e, requests[0]).0, requests[1..])
  }

  /** Granted in window `i` over the run, on top of what the entry says it has granted there before. */
  ghost function Recount(cfg: Config, e: Entry, requests: seq<Request>, i: int): int {
    GrantedIn(cfg, e, requests, i) + (if e.index == i then e.curr else if e.index == i + 1 then e.prev else 0)
  }

  lemma ServeRecount(cfg: Config, e: Entry, q: Request, from: int, rest: seq<Request>, i: int)
    requires Ok(cfg, e, from) && from <= q.at && q.at / cfg.window <= i + 1 && InOrder(rest, q.at)
    ensures var f := Serve(cfg, e, q).0;
            Recount(cfg, e, [q] + rest, i) == Recount(cfg, f, rest, i)
  {
    hide AllowN, Ok;
    var (f, n) := Serve(cfg, e, q);
    assert ([q] + rest)[1..] == rest;
    DivMonotone(from, q.at, cfg.window);
    ServeMoves(cfg, e, q, from);
  }

  /** Serving rolls the counts forward to the window of the request and adds what it grants. */
  lemma ServeMoves(cfg: Config, e: Entry, q: Request, from: int)
    requires Ok(cfg, e, from) && from <= q.at
    ensures var (f, n) := Serve(cfg, e, q);
            && Ok(cfg, f, q.at) && f.index == q.at / cfg.window && e.index <= f.index
            && f.curr == (if f.index == e.index then e.curr else 0) + n
            && f.prev == if f.index == e.index then e.prev else if f.index == e.index + 1 then e.curr else 0
  {
    hide Scaled;
    AdvanceOk(cfg, e, from, q.at);
    DivMonotone(from, q.at, cfg.window);
    if 0 < q.n {
      AllowStays(cfg, e, q.n, from, q.at);
    }
  }

  ghost predicate EndsBy(requests: seq<Request>, now: int) {
    forall i :: 0 <= i < |requests| ==> requests[i].at <= now
  }

  /**
   Brought up to date, the two counts of an entry are what a recount of the run gives for this window and the last.
   */
  lemma {:induction false} EntryIsRecount(cfg: Config, e: Entry, requests: seq<Request>, from: int, now: int)
    requires Ok(cfg, e, from) && InOrder(requests, from) && EndsBy(requests, now) && from <= now
    ensures var i, a := now / cfg.window, Advance(cfg, After(cfg, e, requests), now);
            && Ok(cfg, After(cfg, e, requests), now)
            && a.index == i && a.curr == Recount(cfg, e, requests, i) && a.prev == Recount(cfg, e, requests, i - 1)
    decreases |requests|
  {
    hide Ok, Serve;
    var i := now / cfg.window;
    DivMonotone(from, now, cfg.window);
    if requests == [] {
      AdvanceCounts(cfg, e, from, now);
    } else {
      var q, rest := requests[0], requests[1..];
      assert requests == [q] + rest;
      ServeMoves(cfg, e, q, from);
      DivMonotone(q.at, now, cfg.window);
      ServeRecount(cfg, e, q, from, rest, i);
      ServeRecount(cfg, e, q, from, rest, i - 1);
      EntryIsRecount(cfg, Serve(cfg, e, q).0, rest, q.at, now);
    }
  }

  lemma AdvanceCounts(cfg: Config, e: Entry, from: int, now: int)
    requires Ok(cfg, e, from) && from <= now
    ensures var a, i := Advance(cfg, e, now), now / cfg.window;
            && Ok(cfg, e, now) && a.index == i
            && a.curr == (if e.index == i then e.curr else if e.index == i + 1 then e.prev else 0)
            && a.prev == (if e.index == i - 1 then e.curr else if e.index == i then e.prev else 0)
  {
    DivMonotone(from, now, cfg.window);
  }

  /**
   After any run on a new key, a request for `n` is granted exactly when what this window has admitted, and `n`, and
   the last window's admissions weighted by how much of it still counts, come to less than limit + 1.
   */
  lemma DecisionIsExact(cfg: Config, requests: seq<Request>, born: int, n: int, now: int)
    requires InOrder(requests, born) && EndsBy(requests, now) && born <= now && 0 < n
    ensures var i, w, e := now / cfg.window, cfg.window, Blank(cfg, born);
            var curr, prev := GrantedIn(cfg, e, requests, i), GrantedIn(cfg, e, requests, i - 1);
            AllowN(cfg, After(cfg, e, requests), n, now).1 <==>
            prev * (w - now % w) + (curr + n) * w < (cfg.limit + 1) * w
  {
    hide Advance, GrantedIn;
    var i, w, e := now / cfg.window, cfg.window, Blank(cfg, born);
    EntryIsRecount(cfg, e, requests, born, now);
    var a := Advance(cfg, After(cfg, e, requests), now);
    DivBounds(Scaled(cfg, a, now), w);
    FitsBelow(Scaled(cfg, a, now), Used(cfg, a, now), n, cfg.limit, w);
    ScaledAfter(cfg, a, n, now);
  }

  lemma FitsBelow(scaled: int, u: int, n: int, limit: int, w: int)
    requires 0 < w && w * u <= scaled < w * u + w
    ensures u + n <= limit <==> scaled + n * w < (limit + 1) * w
  {
    assert w * (u + n) == w * u + n * w && (limit + 1) * w == w * limit + w;
    if u + n <= limit {
      MulMonotone(w, u + n, limit);
    } else {
      MulMonotone(w, limit + 1, u + n);
    }
  }

  /** What `granted` since `t` says about the entry, by how far the entry has moved beyond the window of `t`. */
  ghost predicate Accounted(cfg: Config, e: Entry, t: int, granted: nat)
  {
    var i := t / cfg.window;
    && (e.index < i ==> granted == 0)
    && (e.index == i ==> granted <= e.curr)
    && (e.index == i + 1 ==> granted <= e.prev + e.curr)
    && granted * cfg.window < (cfg.limit + 1) * cfg.window + cfg.limit * (t % cfg.window)
  }

  /** A grant in the second window is paid for by the weight that the first one still has. */
  lemma SecondWindowPays(cfg: Config, f: Entry, t: int, x: int, granted: nat)
    requires Ok(cfg, f, x) && x <= t + cfg.window && x / cfg.window == t / cfg.window + 1
    requires Scaled(cfg, f, x) < (cfg.limit + 1) * cfg.window && granted <= f.prev + f.curr
    ensures granted * cfg.window < (cfg.limit + 1) * cfg.window + cfg.limit * (t % cfg.window)
  {
    var w, i := cfg.window, t / cfg.window;
    DivBounds(t, w);
    DivBounds(x, w);
    Products(w, i, 1);
    WeightPays(f.prev, f.curr, w, x % w, t % w, cfg.limit, granted, (cfg.limit + 1) * w);
  }

  /** The arithmetic of it, on products. */
  lemma WeightPays(prev: int, curr: int, w: int, x: int, t: int, limit: int, granted: int, bound: int)
    requires 0 <= prev <= limit && 0 < w && 0 <= x <= t && granted <= prev + curr && prev * (w - x) + curr * w < bound
    ensures granted * w < bound + limit * t
  {
    MulMonotone(w, granted, prev + curr);
    Products(w, prev, curr);
    Products(prev, w, -x);
    MulMonotone(prev, x, t);
    MulMonotone(t, prev, limit);
  }

  lemma Products(a: int, x: int, y: int)
    ensures a * (x + y) == a * x + a * y
  {
  }

  lemma FirstWindowPays(cfg: Config, t: int, granted: nat)
    requires granted <= cfg.limit
    ensures granted * cfg.window < (cfg.limit + 1) * cfg.window + cfg.limit * (t % cfg.window)
  {
    MulMonotone(cfg.window, granted, cfg.limit);
    assert (cfg.limit + 1) * cfg.window == cfg.window * cfg.limit + cfg.window;
    MulMonotone(cfg.limit, 0, t % cfg.window);
  }

  /** A time within one window's length of `t` lies in the window of `t` or the next. */
  lemma SameOrNext(t: int, x: int, w: int)
    requires 0 < w && t <= x <= t + w
    ensures x / w == t / w || x / w == t / w + 1
  {
    DivBounds(t, w);
    assert w * (t / w + 1) == w * (t / w) + w;
    DivUnique(t + w, w, t / w + 1);
    DivMonotone(t, x, w);
    DivMonotone(x, t + w, w);
  }

  /** An admission within one window's length of `t` keeps the total since `t` within its bound. */
  lemma AdmissionPays(cfg: Config, f: Entry, t: int, x: int, total: nat)
    requires Ok(cfg, f, x) && f.index == x / cfg.window && t <= x <= t + cfg.window
    requires Scaled(cfg, f, x) < (cfg.limit + 1) * cfg.window
    requires f.index == t / cfg.window ==> total <= f.curr
    requires f.index == t / cfg.window + 1 ==> total <= f.prev + f.curr
    ensures total * cfg.window < (cfg.limit + 1) * cfg.window + cfg.limit * (t % cfg.window)
  {
    hide Scaled;
    SameOrNext(t, x, cfg.window);
    if f.index == t / cfg.window {
      FirstWindowPays(cfg, t, total);
    } else {
      SecondWindowPays(cfg, f, t, x, total);
    }
  }

  lemma ServeAccounted(cfg: Config, e: Entry, q: Request, from: int, t: int, granted: nat)
    requires Ok(cfg, e, from) && from <= q.at && Accounted(cfg, e, t, granted)
    ensures var (f, n) := Serve(cfg, e, q);
            Accounted(cfg, f, t, granted + if t <= q.at <= t + cfg.window then n else 0)
  {
    hide Scaled, Ok, Serve;
    var (f, n) := Serve(cfg, e, q);
    ServeCounts(cfg, e, q, from);
    ServeEstimate(cfg, e, q, from);
    OkCurr(cfg, e, from);
    OkCurr(cfg, f, q.at);
    var total := granted + if t <= q.at <= t + cfg.window then n else 0;
    if t <= q.at <= t + cfg.window && 0 < n {
      SameOrNext(t, q.at, cfg.window);
      AdmissionPays(cfg, f, t, q.at, total);
    }
  }

  lemma {:induction false} RunAccounted(cfg: Config, e: Entry, requests: seq<Request>, from: int, t: int, granted: nat)
    requires Ok(cfg, e, from) && InOrder(requests, from) && Accounted(cfg, e, t, granted)
    ensures (granted + GrantedBetween(cfg, e, requests, t, t + cfg.window)) * cfg.window <
            (cfg.limit + 1) * cfg.window + cfg.limit * (t % cfg.window)
    decreases |requests|
  {
    hide Ok, Serve;
    if requests != [] {
      var q := requests[0];
      var (f, n) := Serve(cfg, e, q);
      ServeCounts(cfg, e, q, from);
      ServeAccounted(cfg, e, q, from, t, granted);
      RunAccounted(cfg, f, requests[1..], q.at, t, granted + if t <= q.at <= t + cfg.window then n else 0);
    }
  }

  /**
   Any interval of one window's length that starts `t % window` into an aligned window admits fewer than
   limit + 1 + limit * (t % window) / window: at most the limit if aligned, and never more than twice the limit.
   */
  lemma IntervalBound(cfg: Config, e: Entry, requests: seq<Request>, from: int, t: int)
    requires Ok(cfg, e, from) && InOrder(requests, from)
    ensures var a := GrantedBetween(cfg, e, requests, t, t + cfg.window);
            && a * cfg.window < (cfg.limit + 1) * cfg.window + cfg.limit * (t % cfg.window)
            && a <= 2 * cfg.limit
            && (t % cfg.window == 0 ==> a <= cfg.limit)
  {
    hide GrantedBetween;
    var w := cfg.window;
    OkCurr(cfg, e, from);
    FirstWindowPays(cfg, t, 0);
    RunAccounted(cfg, e, requests, from, t, 0);
    var a := GrantedBetween(cfg, e, requests, t, t + w);
    MulMonotone(cfg.limit, t % w, w);
    assert w * (2 * cfg.limit + 1) == (cfg.limit + 1) * w + cfg.limit * w;
    MulCancel(w, a, 2 * cfg.limit + 1);
    if t % w == 0 {
      MulCancel(w, a, cfg.limit + 1);
    }
  }
}
