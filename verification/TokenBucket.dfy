/** The token bucket: what it admits, and bounds on it. */
module TokenBucket {

  datatype Bucket = Bucket(tokens: int, last: int)

  /** `idleTimeout` and `gcInterval` belong to the collection of idle keys. */
  datatype Settings = Config(capacity: int, refillRate: int, idleTimeout: int, gcInterval: int)

  /** The constructor replaces settings that are not positive. */
  type Config = c: Settings | 0 < c.capacity && 0 < c.refillRate && 0 < c.idleTimeout && 0 < c.gcInterval
    witness Config(1, 1, 1, 1)

  function Full(cfg: Config, now: int): Bucket {
    Bucket(cfg.capacity, now)
  }

  /** Whole refill periods since `last`, truncated toward zero should the clock be before it. */
  function Periods(cfg: Config, last: int, now: int): int
  {
    if now >= last then (now - last) / cfg.refillRate else -((last - now) / cfg.refillRate)
  }

  /** Whole tokens earned since `last`; the fraction of a token is carried over unless the bucket is full. */
  function Refilled(cfg: Config, b: Bucket, now: int): Bucket
  {
    var refill := Periods(cfg, b.last, now);
    if refill <= 0 then b
    else if b.tokens + refill >= cfg.capacity then Full(cfg, now)
    else Bucket(b.tokens + refill, b.last + refill * cfg.refillRate)
  }

  function AllowN(cfg: Config, b: Bucket, n: int, now: int): (Bucket, bool)
  {
    var r := Refilled(cfg, b, now);
    if r.tokens < n then (r, false) else (r.(tokens := r.tokens - n), true)
  }

  function Remaining(cfg: Config, b: Bucket, now: int): int
  {
    var tokens := b.tokens + Periods(cfg, b.last, now);
    if tokens > cfg.capacity then cfg.capacity else tokens
  }

  /** What holds of every bucket the limiter creates, as long as the clock does not run backward. */
  ghost predicate Ok(cfg: Config, b: Bucket, now: int) {
    0 <= b.tokens <= cfg.capacity && b.last <= now
  }

  lemma Quotient(elapsed: int, rate: int)
    requires 0 <= elapsed && 0 < rate
    ensures 0 <= elapsed / rate
    ensures rate * (elapsed / rate) <= elapsed < rate * (elapsed / rate) + rate
  {
  }

  lemma AllowNOk(cfg: Config, b: Bucket, n: int, now: int)
    requires Ok(cfg, b, now) && 0 < n
    ensures Ok(cfg, AllowN(cfg, b, n, now).0, now)
    ensures AllowN(cfg, b, n, now).1 <==> n <= Remaining(cfg, b, now)
    ensures 0 <= Remaining(cfg, b, now) <= cfg.capacity
  {
    Quotient(now - b.last, cfg.refillRate);
  }

  /** Exactly when a request is granted: it fits the bucket, and the tokens and the time since `last` pay for it. */
  lemma GrantedIff(cfg: Config, b: Bucket, n: int, now: int)
    requires Ok(cfg, b, now) && 0 < n
    ensures AllowN(cfg, b, n, now).1 <==>
            n <= cfg.capacity && cfg.refillRate * n <= cfg.refillRate * b.tokens + (now - b.last)
  {
    hide Refilled;
    RefilledTokens(cfg, b, now);
    Affordable(cfg.refillRate, n, b.tokens, now - b.last);
  }

  lemma RefilledTokens(cfg: Config, b: Bucket, now: int)
    requires Ok(cfg, b, now)
    ensures var tokens := b.tokens + (now - b.last) / cfg.refillRate;
            Refilled(cfg, b, now).tokens == if tokens >= cfg.capacity then cfg.capacity else tokens
  {
    Quotient(now - b.last, cfg.refillRate);
  }

  lemma Affordable(rate: int, n: int, tokens: int, elapsed: int)
    requires 0 < rate && 0 <= elapsed
    ensures n <= tokens + elapsed / rate <==> rate * n <= rate * tokens + elapsed
  {
    var q := elapsed / rate;
    Quotient(elapsed, rate);
    Less(rate, n, tokens);
    if n - tokens <= q {
      Monotone(rate, n - tokens, q);
    } else {
      Monotone(rate, q + 1, n - tokens);
      Less(rate, q, -1);
    }
  }

  /** A bucket that has been used up grants `n` again exactly when `n` refill periods have passed. */
  lemma EmptyRefills(cfg: Config, t: int, n: int, now: int)
    requires t <= now && 0 < n
    ensures AllowN(cfg, Bucket(0, t), n, now).1 <==> n <= cfg.capacity && cfg.refillRate * n <= now - t
  {
    hide AllowN;
    GrantedIff(cfg, Bucket(0, t), n, now);
  }

  /** With the clock behind, AllowN earns and loses nothing, and Remaining takes off the whole periods still missing. */
  lemma ClockBehind(cfg: Config, b: Bucket, n: int, now: int)
    requires now < b.last && b.tokens <= cfg.capacity
    ensures AllowN(cfg, b, n, now).1 <==> n <= b.tokens
    ensures AllowN(cfg, b, n, now).0 == if n <= b.tokens then Bucket(b.tokens - n, b.last) else b
    ensures var missing := b.tokens - Remaining(cfg, b, now);
            cfg.refillRate * missing <= b.last - now < cfg.refillRate * missing + cfg.refillRate
  {
    Quotient(b.last - now, cfg.refillRate);
  }

  // ----- the rate bound -----

  /** What the bucket is worth at `now`, in time: its tokens, plus the time already counted toward the next one. */
  ghost function Credit(cfg: Config, b: Bucket, now: int): int {
    cfg.refillRate * b.tokens + (now - b.last)
  }

  lemma RefillCredit(cfg: Config, b: Bucket, now: int)
    requires Ok(cfg, b, now)
    ensures var r := Refilled(cfg, b, now);
            && Ok(cfg, r, now) && Credit(cfg, r, now) <= Credit(cfg, b, now)
            && Credit(cfg, r, now) < cfg.refillRate * (cfg.capacity + 1)
  {
    var rate, refill := cfg.refillRate, (now - b.last) / cfg.refillRate;
    Quotient(now - b.last, rate);
    var r := Refilled(cfg, b, now);
    assert rate * (b.tokens + refill) == rate * b.tokens + rate * refill;
    assert rate * (cfg.capacity + 1) == rate * cfg.capacity + rate;
    if refill > 0 && b.tokens + refill >= cfg.capacity {
      assert rate * cfg.capacity <= rate * (b.tokens + refill);
    } else {
      assert rate * r.tokens <= rate * cfg.capacity;
    }
  }

  datatype Request = Request(at: int, n: int)

  ghost predicate Within(requests: seq<Request>, from: int, to: int)
    decreases |requests|
  {
    if requests == [] then from <= to
    else from <= requests[0].at && Within(requests[1..], requests[0].at, to)
  }

  /** How many events a run of requests on one key is granted; a request for nothing is granted without looking. */
  ghost function Admitted(cfg: Config, b: Bucket, requests: seq<Request>): nat
    decreases |requests|
  {
    if requests == [] then 0
    else if requests[0].n <= 0 then Admitted(cfg, b, requests[1..])
    else
      var (c, ok) := AllowN(cfg, b, requests[0].n, requests[0].at);
      (if ok then requests[0].n else 0) + Admitted(cfg, c, requests[1..])
  }

  lemma AllowSpends(cfg: Config, b: Bucket, n: int, now: int)
    requires Ok(cfg, b, now) && 0 < n
    ensures var (c, ok) := AllowN(cfg, b, n, now);
            && Ok(cfg, c, now)
            && Credit(cfg, c, now) + cfg.refillRate * (if ok then n else 0) == Credit(cfg, Refilled(cfg, b, now), now)
  {
    hide Refilled;
    RefillCredit(cfg, b, now);
    Less(cfg.refillRate, Refilled(cfg, b, now).tokens, n);
  }

  lemma Less(rate: int, x: int, y: int)
    ensures rate * (x - y) == rate * x - rate * y
  {
  }

  /** Admissions are paid for out of the credit at the start and the time that passes. */
  lemma {:induction false} AdmittedIsPaid(cfg: Config, b: Bucket, requests: seq<Request>, from: int, to: int)
    requires Ok(cfg, b, from) && Within(requests, from, to)
    ensures from <= to
    ensures cfg.refillRate * Admitted(cfg, b, requests) <= Credit(cfg, b, from) + (to - from)
    decreases |requests|
  {
    hide Refilled, AllowN;
    if requests == [] {
      assert 0 <= cfg.refillRate * b.tokens;
    } else {
      var q := requests[0];
      if q.n <= 0 {
        AdmittedIsPaid(cfg, b, requests[1..], q.at, to);
      } else {
        var (c, ok) := AllowN(cfg, b, q.n, q.at);
        AllowSpends(cfg, b, q.n, q.at);
        RefillCredit(cfg, b, q.at);
        AdmittedIsPaid(cfg, c, requests[1..], q.at, to);
        var paid, rest := if ok then q.n else 0, Admitted(cfg, c, requests[1..]);
        assert cfg.refillRate * (paid + rest) == cfg.refillRate * paid + cfg.refillRate * rest;
      }
    }
  }

  /** In any interval the bucket admits less than its capacity plus one, beyond what the interval refills. */
  lemma {:induction false} RateBound(cfg: Config, b: Bucket, requests: seq<Request>, from: int, to: int)
    requires Ok(cfg, b, from) && Within(requests, from, to)
    ensures cfg.refillRate * (Admitted(cfg, b, requests) - cfg.capacity - 1) < to - from
    decreases |requests|
  {
    hide Refilled, AllowN, Credit;
    var rate := cfg.refillRate;
    if requests == [] {
      Monotone(rate, -cfg.capacity - 1, -1);
    } else if requests[0].n <= 0 {
      RateBound(cfg, b, requests[1..], requests[0].at, to);
      AdmittedIsPaid(cfg, b, requests[1..], requests[0].at, to);
    } else {
      var q := requests[0];
      var (c, ok) := AllowN(cfg, b, q.n, q.at);
      AllowSpends(cfg, b, q.n, q.at);
      RefillCredit(cfg, b, q.at);
      AdmittedIsPaid(cfg, c, requests[1..], q.at, to);
      var paid, rest := if ok then q.n else 0, Admitted(cfg, c, requests[1..]);
      assert rate * (paid + rest) == rate * paid + rate * rest;
      assert rate * (paid + rest - cfg.capacity - 1) == rate * (paid + rest) - rate * (cfg.capacity + 1);
    }
  }

  lemma Monotone(rate: int, x: int, y: int)
    requires 0 < rate && x <= y
    ensures rate * x <= rate * y
  {
  }

  /** From its creation on, a bucket never admits more than its capacity beyond what the elapsed time refills. */
  lemma RateBoundFromCreation(cfg: Config, requests: seq<Request>, from: int, to: int)
    requires Within(requests, from, to)
    ensures cfg.refillRate * (Admitted(cfg, Full(cfg, from), requests) - cfg.capacity) <= to - from
  {
    hide AllowN, Refilled, Admitted, Within;
    AdmittedIsPaid(cfg, Full(cfg, from), requests, from, to);
    var a := Admitted(cfg, Full(cfg, from), requests);
    assert cfg.refillRate * (a - cfg.capacity) == cfg.refillRate * a - cfg.refillRate * cfg.capacity;
  }
}
