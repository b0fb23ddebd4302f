/** The reference cache: one flat map, and eviction by scanning every entry for the least rank. */
module NaiveCache {
  import opened Common

  /** A call on a cache. A `ttl` that is not positive means "no expiry", as when it is left out. */
  datatype Op<K, T> =
    | Get(key: K, now: nat)
    | Set(key: K, value: T, ttl: int, now: nat)
    | Delete(key: K)

  /** What the entry was given, how often and when it was last touched, and when it was created. */
  datatype Entry<T> = Entry(value: T, expiration: nat, uses: int, last: nat, born: nat)

  datatype Policy = LeastFrequent | LeastRecent | FirstIn

  datatype Naive<K, T> = Naive(policy: Policy, capacity: nat, tick: nat, entries: map<K, Entry<T>>)

  ghost function Empty<K, T>(policy: Policy, capacity: nat): Naive<K, T> {
    Naive(policy, capacity, 0, map[])
  }

  function Expiry(ttl: int, now: nat): nat {
    if ttl > 0 then now + ttl else 0
  }

  predicate Expired(expiration: nat, now: nat) {
    0 < expiration <= now
  }

  ghost function Rank<T>(p: Policy, e: Entry<T>): (int, int) {
    match p
    case LeastFrequent => (e.uses, e.last)
    case LeastRecent => (0, e.last)
    case FirstIn => (0, e.born)
  }

  ghost predicate Below(a: (int, int), b: (int, int)) {
    a.0 < b.0 || (a.0 == b.0 && a.1 < b.1)
  }

  /** The date by which the policy breaks ties: creation for FIFO, last touch otherwise. */
  ghost function Dates<K, T>(c: Naive<K, T>): map<K, int> {
    map k | k in c.entries :: Rank(c.policy, c.entries[k]).1
  }

  ghost predicate IsLeast<K, T>(c: Naive<K, T>, k: K) {
    k in c.entries &&
    forall j :: j in c.entries && j != k ==> Below(Rank(c.policy, c.entries[k]), Rank(c.policy, c.entries[j]))
  }

  ghost function Evict<K, T>(c: Naive<K, T>): Naive<K, T> {
    if exists k :: k in c.entries && IsLeast(c, k) then
      var k :| k in c.entries && IsLeast(c, k);
      c.(entries := c.entries - {k})
    else c
  }

  ghost function Touch<K, T>(c: Naive<K, T>, k: K): Naive<K, T>
    requires k in c.entries
  {
    var e := c.entries[k];
    c.(entries := c.entries[k := e.(uses := e.uses + 1, last := c.tick)])
  }

  ghost function Insert<K, T>(c: Naive<K, T>, k: K, v: T, expiration: nat): Naive<K, T> {
    c.(entries := c.entries[k := Entry(v, expiration, 1, c.tick, c.tick)])
  }

  /** One call, and what it answers; only Get answers anything. */
  ghost function Apply<K, T>(c: Naive<K, T>, op: Op<K, T>): (Naive<K, T>, Option<T>) {
    match op
    case Get(k, now) =>
      if k !in c.entries then (c, None)
      else if Expired(c.entries[k].expiration, now) then (c.(entries := c.entries - {k}), None)
      else (Touch(c, k), Some(c.entries[k].value))
    case Set(k, v, ttl, now) =>
      if k in c.entries then
        var e := c.entries[k].(value := v, expiration := Expiry(ttl, now));
        (Touch(c.(entries := c.entries[k := e]), k), None)
      else
        (Insert(if |c.entries| >= c.capacity then Evict(c) else c, k, v, Expiry(ttl, now)), None)
    case Delete(k) =>
      (if k in c.entries then c.(entries := c.entries - {k}) else c, None)
  }

  /** `Apply` also moves the reference clock that dates touches. */
  ghost function Step<K, T>(c: Naive<K, T>, op: Op<K, T>): (Naive<K, T>, Option<T>) {
    var (d, answer) := Apply(c, op);
    (d.(tick := d.tick + 1), answer)
  }

  /** The answers of a whole run, and the cache it ends in. */
  ghost function Run<K, T>(c: Naive<K, T>, ops: seq<Op<K, T>>): (Naive<K, T>, seq<Option<T>>)
    decreases |ops|
  {
    if ops == [] then (c, [])
    else
      var (d, answer) := Step(c, ops[0]);
      var (e, answers) := Run(d, ops[1..]);
      (e, [answer] + answers)
  }

  /** Ranks are strictly ordered, so the scan has at most one candidate. */
  lemma EvictTakesLeast<K, T>(c: Naive<K, T>, k: K)
    requires IsLeast(c, k)
    ensures Evict(c) == c.(entries := c.entries - {k})
  {
    assert forall j :: j in c.entries && IsLeast(c, j) ==> j == k;
  }
}
