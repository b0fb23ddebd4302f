/** The LRU and FIFO caches on values: a map and one sequence of keys, newest first. */
module QueueModel {
  import opened Common
  import N = NaiveCache

  datatype Slot<T> = Slot(value: T, expiration: nat)

  /** `recency` is true for LRU, where a hit moves the key to the front, and false for FIFO. */
  datatype Queue<K, T> = Queue(recency: bool, capacity: nat, items: map<K, Slot<T>>, order: seq<K>)

  ghost function Empty<K, T>(recency: bool, capacity: nat): Queue<K, T> {
    Queue(recency, capacity, map[], [])
  }

  ghost function Remove<K, T>(s: Queue<K, T>, k: K): Queue<K, T> {
    s.(items := s.items - {k}, order := Without(s.order, k))
  }

  ghost function Touch<K, T>(s: Queue<K, T>, k: K): Queue<K, T> {
    if s.recency then s.(order := [k] + Without(s.order, k)) else s
  }

  ghost function Evict<K, T>(s: Queue<K, T>): Queue<K, T> {
    if s.order == [] then s else Remove(s, s.order[|s.order| - 1])
  }

  ghost function Insert<K, T>(s: Queue<K, T>, k: K, v: T, expiration: nat): Queue<K, T> {
    s.(items := s.items[k := Slot(v, expiration)], order := [k] + s.order)
  }

  ghost function Overwrite<K, T>(s: Queue<K, T>, k: K, v: T, expiration: nat): Queue<K, T> {
    s.(items := s.items[k := Slot(v, expiration)])
  }

  ghost function Step<K, T>(s: Queue<K, T>, op: N.Op<K, T>): (Queue<K, T>, Option<T>) {
    match op
    case Get(k, now) =>
      if k !in s.items then (s, None)
      else if N.Expired(s.items[k].expiration, now) then (Remove(s, k), None)
      else (Touch(s, k), Some(s.items[k].value))
    case Set(k, v, ttl, now) =>
      if k in s.items then (Touch(Overwrite(s, k, v, N.Expiry(ttl, now)), k), None)
      else (Insert(if |s.items| >= s.capacity then Evict(s) else s, k, v, N.Expiry(ttl, now)), None)
    case Delete(k) =>
      (if k in s.items then Remove(s, k) else s, None)
  }

  ghost function Run<K, T>(s: Queue<K, T>, ops: seq<N.Op<K, T>>): (Queue<K, T>, seq<Option<T>>)
    decreases |ops|
  {
    if ops == [] then (s, [])
    else
      var (t, answer) := Step(s, ops[0]);
      var (u, answers) := Run(t, ops[1..]);
      (u, [answer] + answers)
  }

  /** The sequence lists exactly the keys of the map, each once. */
  ghost predicate Lists<K, T>(s: Queue<K, T>) {
    && Distinct(s.order)
    && (forall k :: k in s.order ==> k in s.items)
    && (forall k :: k in s.items ==> k in s.order)
  }

  ghost predicate Valid<K, T>(s: Queue<K, T>) {
    1 <= s.capacity && |s.items| <= s.capacity && Lists(s)
  }

  lemma RemoveLists<K, T>(s: Queue<K, T>, k: K)
    requires Lists(s) && k in s.items
    ensures Lists(Remove(s, k)) && |Remove(s, k).items| == |s.items| - 1
  {
    hide Without;
    WithoutMembers(s.order, k);
    assert (s.items - {k}).Keys == s.items.Keys - {k};
  }

  lemma TouchLists<K, T>(s: Queue<K, T>, k: K)
    requires Lists(s) && k in s.items
    ensures Lists(Touch(s, k))
  {
    hide Without;
    WithoutMembers(s.order, k);
    PrependMembers(Without(s.order, k), k);
    if s.recency {
      assert Touch(s, k).order[0] == k;
    }
  }

  lemma EvictLists<K, T>(s: Queue<K, T>)
    requires Lists(s) && 1 <= |s.items|
    ensures s.order != [] && Lists(Evict(s)) && |Evict(s).items| == |s.items| - 1
    ensures Evict(s).items.Keys <= s.items.Keys
  {
    var k :| k in s.items.Keys;
    assert k in s.order;
    RemoveLists(s, s.order[|s.order| - 1]);
  }

  lemma InsertLists<K, T>(s: Queue<K, T>, k: K, v: T, expiration: nat)
    requires Lists(s) && k !in s.items
    ensures Lists(Insert(s, k, v, expiration)) && |Insert(s, k, v, expiration).items| == |s.items| + 1
  {
    PrependMembers(s.order, k);
    var t := Insert(s, k, v, expiration);
    assert t.items.Keys == s.items.Keys + {k};
    assert t.order[0] == k;
  }

  /** Every call keeps the invariant, so in particular Len never exceeds the capacity. */
  lemma StepValid<K, T>(s: Queue<K, T>, op: N.Op<K, T>)
    requires Valid(s)
    ensures Valid(Step(s, op).0)
  {
    hide Lists, Remove, Insert;
    match op
    case Get(k, now) =>
      if k in s.items {
        RemoveLists(s, k);
        TouchLists(s, k);
        RemoveFixed(s, k);
      }
    case Set(k, v, ttl, now) =>
      if k in s.items {
        OverwriteLists(s, k, v, N.Expiry(ttl, now));
        TouchLists(Overwrite(s, k, v, N.Expiry(ttl, now)), k);
      } else if |s.items| >= s.capacity {
        EvictLists(s);
        RemoveFixed(s, s.order[|s.order| - 1]);
        InsertLists(Evict(s), k, v, N.Expiry(ttl, now));
        InsertFixed(Evict(s), k, v, N.Expiry(ttl, now));
      } else {
        InsertLists(s, k, v, N.Expiry(ttl, now));
        InsertFixed(s, k, v, N.Expiry(ttl, now));
      }
    case Delete(k) =>
      if k in s.items {
        RemoveLists(s, k);
        RemoveFixed(s, k);
      }
  }

  lemma RemoveFixed<K, T>(s: Queue<K, T>, k: K)
    ensures Remove(s, k).capacity == s.capacity && Remove(s, k).recency == s.recency
  {
  }

  lemma InsertFixed<K, T>(s: Queue<K, T>, k: K, v: T, expiration: nat)
    ensures Insert(s, k, v, expiration).capacity == s.capacity && Insert(s, k, v, expiration).recency == s.recency
  {
  }

  lemma OverwriteLists<K, T>(s: Queue<K, T>, k: K, v: T, expiration: nat)
    requires Lists(s) && k in s.items
    ensures Lists(Overwrite(s, k, v, expiration)) && |Overwrite(s, k, v, expiration).items| == |s.items|
  {
    var t := Overwrite(s, k, v, expiration);
    assert t.items.Keys == s.items.Keys && |t.items| == |t.items.Keys|;
  }
}
