/** LRU and FIFO answer every run as the scanning reference does under their own policies. */
module QueueRefinement {
  import opened Common
  import opened QueueModel
  import N = NaiveCache

  ghost function PolicyOf(recency: bool): N.Policy {
    if recency then N.LeastRecent else N.FirstIn
  }

  ghost predicate SameEntry<T>(i: Slot<T>, e: N.Entry<T>, tick: nat) {
    i.value == e.value && i.expiration == e.expiration && e.last < tick && e.born < tick
  }

  ghost predicate Agrees<K, T>(s: Queue<K, T>, n: N.Naive<K, T>) {
    && n.policy == PolicyOf(s.recency) && n.capacity == s.capacity
    && n.entries.Keys == s.items.Keys
    && (forall k :: k in s.items ==> SameEntry(s.items[k], n.entries[k], n.tick))
    && Descending(s.order, N.Dates(n))
  }

  lemma TickAgrees<K, T>(s: Queue<K, T>, n: N.Naive<K, T>)
    requires Agrees(s, n)
    ensures Agrees(s, n.(tick := n.tick + 1))
  {
    DescendingSame(s.order, N.Dates(n), N.Dates(n.(tick := n.tick + 1)));
  }

  lemma RemoveAgrees<K, T>(s: Queue<K, T>, n: N.Naive<K, T>, k: K)
    requires Lists(s) && Agrees(s, n) && k in s.items
    ensures Agrees(Remove(s, k), n.(entries := n.entries - {k}))
  {
    hide Descending, Without;
    DescendingWithout(s.order, k, N.Dates(n), N.Dates(n.(entries := n.entries - {k})));
  }

  lemma TouchAgrees<K, T>(s: Queue<K, T>, n: N.Naive<K, T>, k: K)
    requires Lists(s) && Agrees(s, n) && k in s.items
    ensures Agrees(Touch(s, k), N.Touch(n, k).(tick := n.tick + 1))
  {
    hide Descending, Without;
    var m := N.Touch(n, k).(tick := n.tick + 1);
    var was, now := N.Dates(n), N.Dates(m);
    if s.recency {
      WithoutMembers(s.order, k);
      DescendingWithout(s.order, k, was, now);
      DescendingPrepend(Without(s.order, k), k, now, now);
    } else {
      DescendingSame(s.order, was, now);
    }
  }

  lemma InsertAgrees<K, T>(s: Queue<K, T>, n: N.Naive<K, T>, k: K, v: T, expiration: nat)
    requires Lists(s) && Agrees(s, n) && k !in s.items
    ensures Agrees(Insert(s, k, v, expiration), N.Insert(n, k, v, expiration).(tick := n.tick + 1))
  {
    hide Descending;
    var m := N.Insert(n, k, v, expiration).(tick := n.tick + 1);
    DescendingPrepend(s.order, k, N.Dates(n), N.Dates(m));
  }

  lemma OverwriteAgrees<K, T>(s: Queue<K, T>, n: N.Naive<K, T>, k: K, v: T, expiration: nat)
    requires Lists(s) && Agrees(s, n) && k in s.items
    ensures var e := n.entries[k].(value := v, expiration := expiration);
            Agrees(Overwrite(s, k, v, expiration), n.(entries := n.entries[k := e]))
  {
    hide Descending;
    var m := n.(entries := n.entries[k := n.entries[k].(value := v, expiration := expiration)]);
    DescendingSame(s.order, N.Dates(n), N.Dates(m));
  }

  /** The last key of the sequence has the least rank: the least recently touched, or the first inserted. */
  lemma EvictAgrees<K, T>(s: Queue<K, T>, n: N.Naive<K, T>)
    requires Lists(s) && Agrees(s, n) && s.order != []
    ensures N.IsLeast(n, s.order[|s.order| - 1]) && Agrees(Evict(s), N.Evict(n))
  {
    var v := s.order[|s.order| - 1];
    assert v in s.order;
    forall j | j in n.entries && j != v
      ensures N.Below(N.Rank(n.policy, n.entries[v]), N.Rank(n.policy, n.entries[j]))
    {
      var i :| 0 <= i < |s.order| && s.order[i] == j;
    }
    N.EvictTakesLeast(n, v);
    RemoveAgrees(s, n, v);
  }

  /** What agreement says of one key and of the sizes. */
  lemma AgreesAt<K, T>(s: Queue<K, T>, n: N.Naive<K, T>, k: K)
    requires Agrees(s, n)
    ensures n.capacity == s.capacity && |n.entries| == |s.items| && (k in n.entries <==> k in s.items)
    ensures k in s.items ==> SameEntry(s.items[k], n.entries[k], n.tick)
  {
    assert |s.items| == |s.items.Keys| && |n.entries| == |n.entries.Keys|;
  }

  lemma DropAgrees<K, T>(s: Queue<K, T>, n: N.Naive<K, T>, k: K)
    requires Lists(s) && Agrees(s, n) && k in s.items
    ensures Agrees(Remove(s, k), n.(entries := n.entries - {k}, tick := n.tick + 1))
  {
    hide Lists, Agrees, Remove;
    RemoveAgrees(s, n, k);
    TickAgrees(Remove(s, k), n.(entries := n.entries - {k}));
  }

  lemma GetAgrees<K, T>(s: Queue<K, T>, n: N.Naive<K, T>, k: K, now: nat)
    requires Valid(s) && Agrees(s, n)
    ensures Agrees(Step(s, N.Get(k, now)).0, N.Step(n, N.Get(k, now)).0)
    ensures Step(s, N.Get(k, now)).1 == N.Step(n, N.Get(k, now)).1
  {
    hide Lists, Agrees, Touch, Remove;
    AgreesAt(s, n, k);
    if k !in s.items {
      TickAgrees(s, n);
    } else if N.Expired(s.items[k].expiration, now) {
      DropAgrees(s, n, k);
    } else {
      TouchAgrees(s, n, k);
    }
  }

  lemma SetAgrees<K, T>(s: Queue<K, T>, n: N.Naive<K, T>, k: K, v: T, ttl: int, now: nat)
    requires Valid(s) && Agrees(s, n)
    ensures Agrees(Step(s, N.Set(k, v, ttl, now)).0, N.Step(n, N.Set(k, v, ttl, now)).0)
  {
    hide Lists, Agrees, Touch, Insert, Overwrite;
    var exp := N.Expiry(ttl, now);
    AgreesAt(s, n, k);
    if k in s.items {
      OverwriteHas(s, k, v, exp);
      OverwriteLists(s, k, v, exp);
      OverwriteAgrees(s, n, k, v, exp);
      var e := n.entries[k].(value := v, expiration := exp);
      TouchAgrees(Overwrite(s, k, v, exp), n.(entries := n.entries[k := e]), k);
    } else if |s.items| >= s.capacity {
      EvictLists(s);
      EvictAgrees(s, n);
      InsertAgrees(Evict(s), N.Evict(n), k, v, exp);
    } else {
      InsertAgrees(s, n, k, v, exp);
    }
  }

  lemma OverwriteHas<K, T>(s: Queue<K, T>, k: K, v: T, expiration: nat)
    requires k in s.items
    ensures k in Overwrite(s, k, v, expiration).items
  {
  }

  lemma StepAgrees<K, T>(s: Queue<K, T>, n: N.Naive<K, T>, op: N.Op<K, T>)
    requires Valid(s) && Agrees(s, n)
    ensures Agrees(Step(s, op).0, N.Step(n, op).0)
    ensures Step(s, op).1 == N.Step(n, op).1
  {
    hide Lists, Agrees, Touch, Remove, Insert;
    match op {
      case Get(k, now) => GetAgrees(s, n, k, now);
      case Set(k, v, ttl, now) => SetAgrees(s, n, k, v, ttl, now);
      case Delete(k) =>
        AgreesAt(s, n, k);
        if k in s.items {
          DropAgrees(s, n, k);
        } else {
          TickAgrees(s, n);
        }
    }
  }

  lemma {:induction false} RunAgrees<K, T>(s: Queue<K, T>, n: N.Naive<K, T>, ops: seq<N.Op<K, T>>)
    requires Valid(s) && Agrees(s, n)
    ensures Run(s, ops).1 == N.Run(n, ops).1
    ensures Valid(Run(s, ops).0) && Agrees(Run(s, ops).0, N.Run(n, ops).0)
    decreases |ops|
  {
    hide Valid, Agrees;
    if ops != [] {
      StepValid(s, ops[0]);
      StepAgrees(s, n, ops[0]);
      RunAgrees(Step(s, ops[0]).0, N.Step(n, ops[0]).0, ops[1..]);
    }
  }

  /** Over every run from an empty cache: same answers, same surviving keys, never over capacity. */
  lemma QueueRefinesScan<K, T>(recency: bool, capacity: nat, ops: seq<N.Op<K, T>>)
    requires 1 <= capacity
    ensures var s := Run(Empty<K, T>(recency, capacity), ops);
            var n := N.Run(N.Empty<K, T>(PolicyOf(recency), capacity), ops);
            && s.1 == n.1
            && s.0.items.Keys == n.0.entries.Keys
            && Lists(s.0) && |s.0.items| <= s.0.capacity == capacity
            && Descending(s.0.order, N.Dates(n.0))
  {
    RunAgrees(Empty<K, T>(recency, capacity), N.Empty<K, T>(PolicyOf(recency), capacity), ops);
    CapacityFixed(Empty<K, T>(recency, capacity), ops);
  }

  lemma {:induction false} CapacityFixed<K, T>(s: Queue<K, T>, ops: seq<N.Op<K, T>>)
    ensures Run(s, ops).0.capacity == s.capacity
    decreases |ops|
  {
    if ops != [] {
      CapacityFixed(Step(s, ops[0]).0, ops[1..]);
    }
  }
}
