/** The bucketed LFU cache answers every run exactly as the scanning reference does. */
module LfuRefinement {
  import opened Common
  import opened LfuModel
  import N = NaiveCache

  ghost predicate SameEntry<T>(i: Item<T>, e: N.Entry<T>, tick: nat) {
    i.value == e.value && i.expiration == e.expiration && i.freq == e.uses && e.last < tick
  }

  ghost predicate OrderedAt<K, T>(s: Lfu<K, T>, n: N.Naive<K, T>, f: int) {
    Descending(Bucket(s, f), N.Dates(n))
  }

  /** Same contents as the reference, and every bucket lists its keys from latest to earliest touch. */
  ghost predicate Agrees<K, T>(s: Lfu<K, T>, n: N.Naive<K, T>) {
    && n.policy == N.LeastFrequent && n.capacity == s.capacity
    && n.entries.Keys == s.items.Keys
    && (forall k :: k in s.items ==> SameEntry(s.items[k], n.entries[k], n.tick))
    && (forall f :: OrderedAt(s, n, f))
  }

  lemma TickAgrees<K, T>(s: Lfu<K, T>, n: N.Naive<K, T>)
    requires Agrees(s, n)
    ensures Agrees(s, n.(tick := n.tick + 1))
  {
    var m := n.(tick := n.tick + 1);
    assert N.Dates(m) == N.Dates(n);
    assert forall f :: OrderedAt(s, n, f) ==> OrderedAt(s, m, f);
  }

  lemma RemoveAgrees<K, T>(s: Lfu<K, T>, n: N.Naive<K, T>, k: K)
    requires Filed(s) && Agrees(s, n) && k in s.items
    ensures Agrees(Remove(s, k), n.(entries := n.entries - {k}))
  {
    hide Descending, Without;
    var t, m, f := Remove(s, k), n.(entries := n.entries - {k}), s.items[k].freq;
    forall g
      ensures OrderedAt(t, m, g)
    {
      assert FiledAt(s, g) && OrderedAt(s, n, g);
      if g == f {
        DescendingWithout(Bucket(s, g), k, N.Dates(n), N.Dates(m));
      } else {
        assert Bucket(t, g) == Bucket(s, g);
        DescendingSame(Bucket(s, g), N.Dates(n), N.Dates(m));
      }
    }
  }

  lemma BumpAgrees<K, T>(s: Lfu<K, T>, n: N.Naive<K, T>, k: K)
    requires Filed(s) && Agrees(s, n) && k in s.items
    ensures Agrees(Bump(s, k), N.Touch(n, k).(tick := n.tick + 1))
  {
    hide Descending, Without;
    var t, m, f := Bump(s, k), N.Touch(n, k).(tick := n.tick + 1), s.items[k].freq;
    var was, now := N.Dates(n), N.Dates(m);
    assert forall j :: j in n.entries && j != k ==> now[j] == was[j];
    forall g
      ensures OrderedAt(t, m, g)
    {
      assert FiledAt(s, g) && OrderedAt(s, n, g);
      BumpBuckets(s, k, g);
      if g == f {
        DescendingWithout(Bucket(s, g), k, was, now);
      } else if g == f + 1 {
        DescendingPrepend(Bucket(s, g), k, was, now);
      } else {
        assert Bucket(t, g) == Bucket(s, g);
        DescendingSame(Bucket(s, g), was, now);
      }
    }
  }

  lemma InsertAgrees<K, T>(s: Lfu<K, T>, n: N.Naive<K, T>, k: K, v: T, expiration: nat)
    requires Filed(s) && Agrees(s, n) && k !in s.items
    ensures Agrees(Insert(s, k, v, expiration), N.Insert(n, k, v, expiration).(tick := n.tick + 1))
  {
    hide Descending, Without;
    var t, m := Insert(s, k, v, expiration), N.Insert(n, k, v, expiration).(tick := n.tick + 1);
    var was, now := N.Dates(n), N.Dates(m);
    assert forall j :: j in n.entries ==> now[j] == was[j];
    forall g
      ensures OrderedAt(t, m, g)
    {
      assert FiledAt(s, g) && OrderedAt(s, n, g);
      if g == 1 {
        DescendingPrepend(Bucket(s, g), k, was, now);
      } else {
        assert Bucket(t, g) == Bucket(s, g);
        DescendingSame(Bucket(s, g), was, now);
      }
    }
  }

  lemma OverwriteAgrees<K, T>(s: Lfu<K, T>, n: N.Naive<K, T>, k: K, v: T, expiration: nat)
    requires Agrees(s, n) && k in s.items
    ensures var e := n.entries[k].(value := v, expiration := expiration);
            Agrees(Overwrite(s, k, v, expiration), n.(entries := n.entries[k := e]))
  {
    var m := n.(entries := n.entries[k := n.entries[k].(value := v, expiration := expiration)]);
    assert N.Dates(m) == N.Dates(n);
    assert forall f :: OrderedAt(s, n, f) ==> OrderedAt(Overwrite(s, k, v, expiration), m, f);
  }

  /** The tail of the minFreq bucket has the least (use count, last touch) of all entries. */
  lemma VictimIsLeast<K, T>(s: Lfu<K, T>, n: N.Naive<K, T>)
    requires Valid(s) && Agrees(s, n) && Bucket(s, s.minFreq) != []
    ensures var b := Bucket(s, s.minFreq); N.IsLeast(n, b[|b| - 1])
  {
    var b := Bucket(s, s.minFreq);
    var v := b[|b| - 1];
    assert FiledAt(s, s.minFreq) && OrderedAt(s, n, s.minFreq);
    assert v in b;
    forall j | j in n.entries && j != v
      ensures N.Below(N.Rank(n.policy, n.entries[v]), N.Rank(n.policy, n.entries[j]))
    {
      if s.items[j].freq == s.minFreq {
        var i :| 0 <= i < |b| && b[i] == j;
      }
    }
  }

  lemma EvictAgrees<K, T>(s: Lfu<K, T>, n: N.Naive<K, T>)
    requires Valid(s) && Agrees(s, n) && Bucket(s, s.minFreq) != []
    ensures Agrees(Evict(s), N.Evict(n))
  {
    var b := Bucket(s, s.minFreq);
    var v := b[|b| - 1];
    VictimIsLeast(s, n);
    N.EvictTakesLeast(n, v);
    EvictIsRemove(s);
    RemoveAgrees(s, n, v);
    var m := n.(entries := n.entries - {v});
    assert forall f :: OrderedAt(Remove(s, v), m, f) ==> OrderedAt(Evict(s), m, f);
  }

  lemma GetAgrees<K, T>(s: Lfu<K, T>, n: N.Naive<K, T>, k: K, now: nat)
    requires Valid(s) && Agrees(s, n)
    ensures Agrees(Step(s, N.Get(k, now)).0, N.Step(n, N.Get(k, now)).0)
    ensures Step(s, N.Get(k, now)).1 == N.Step(n, N.Get(k, now)).1
  {
    hide Filed, OrderedAt, MinFreqSound, Bucket, Bump, Remove, Insert, Overwrite;
    if k !in s.items {
      TickAgrees(s, n);
    } else if N.Expired(s.items[k].expiration, now) {
      RemoveAgrees(s, n, k);
      TickAgrees(Remove(s, k), n.(entries := n.entries - {k}));
    } else {
      BumpAgrees(s, n, k);
    }
  }

  lemma SetAgrees<K, T>(s: Lfu<K, T>, n: N.Naive<K, T>, k: K, v: T, ttl: int, now: nat)
    requires Valid(s) && Agrees(s, n)
    ensures Agrees(Step(s, N.Set(k, v, ttl, now)).0, N.Step(n, N.Set(k, v, ttl, now)).0)
  {
    hide Filed, OrderedAt, Bump, Remove, Overwrite;
    assert |s.items| == |s.items.Keys| && |n.entries| == |n.entries.Keys|;
    var exp := N.Expiry(ttl, now);
    if k in s.items {
      OverwriteAgrees(s, n, k, v, exp);
      OverwriteValid(s, k, v, exp);
      var e := n.entries[k].(value := v, expiration := exp);
      BumpAgrees(Overwrite(s, k, v, exp), n.(entries := n.entries[k := e]), k);
    } else if |s.items| >= s.capacity {
      EvictAgrees(s, n);
      EvictFiled(s);
      EvictIsRemove(s);
      InsertAgrees(Evict(s), N.Evict(n), k, v, exp);
    } else {
      InsertAgrees(s, n, k, v, exp);
    }
  }

  lemma DeleteAgrees<K, T>(s: Lfu<K, T>, n: N.Naive<K, T>, k: K)
    requires Valid(s) && Agrees(s, n)
    ensures Agrees(Step(s, N.Delete(k)).0, N.Step(n, N.Delete(k)).0)
  {
    hide Filed, OrderedAt, MinFreqSound, Bucket, Bump, Remove, Insert, Overwrite;
    if k in s.items {
      RemoveAgrees(s, n, k);
      TickAgrees(Remove(s, k), n.(entries := n.entries - {k}));
    } else {
      TickAgrees(s, n);
    }
  }

  lemma StepAgrees<K, T>(s: Lfu<K, T>, n: N.Naive<K, T>, op: N.Op<K, T>)
    requires Valid(s) && Agrees(s, n)
    ensures Agrees(Step(s, op).0, N.Step(n, op).0)
    ensures Step(s, op).1 == N.Step(n, op).1
  {
    match op
    case Get(k, now) => GetAgrees(s, n, k, now);
    case Set(k, v, ttl, now) => SetAgrees(s, n, k, v, ttl, now);
    case Delete(k) => DeleteAgrees(s, n, k);
  }

  /** Over every run from an empty cache: same answers, same surviving keys, never over capacity. */
  lemma {:induction false} RunAgrees<K, T>(s: Lfu<K, T>, n: N.Naive<K, T>, ops: seq<N.Op<K, T>>)
    requires Valid(s) && Agrees(s, n)
    ensures Run(s, ops).1 == N.Run(n, ops).1
    ensures Valid(Run(s, ops).0) && Agrees(Run(s, ops).0, N.Run(n, ops).0)
    decreases |ops|
  {
    if ops != [] {
      StepValid(s, ops[0]);
      StepAgrees(s, n, ops[0]);
      RunAgrees(Step(s, ops[0]).0, N.Step(n, ops[0]).0, ops[1..]);
    }
  }

  lemma EmptyAgrees<K, T>(capacity: nat)
    requires 1 <= capacity
    ensures Valid(Empty<K, T>(capacity))
    ensures Agrees(Empty<K, T>(capacity), N.Empty<K, T>(N.LeastFrequent, capacity))
  {
    var s: Lfu<K, T>, n: N.Naive<K, T> := Empty(capacity), N.Empty<K, T>(N.LeastFrequent, capacity);
    assert forall f :: Bucket(s, f) == [] ==> FiledAt(s, f) && OrderedAt(s, n, f);
  }

  lemma LfuRefinesScan<K, T>(capacity: nat, ops: seq<N.Op<K, T>>)
    requires 1 <= capacity
    ensures var s := Run(Empty<K, T>(capacity), ops);
            var n := N.Run(N.Empty<K, T>(N.LeastFrequent, capacity), ops);
            && s.1 == n.1
            && s.0.items.Keys == n.0.entries.Keys
            && |s.0.items| <= s.0.capacity == capacity
            && MinFreqSound(s.0)
  {
    EmptyAgrees<K, T>(capacity);
    RunAgrees(Empty<K, T>(capacity), N.Empty<K, T>(N.LeastFrequent, capacity), ops);
    CapacityFixed(Empty<K, T>(capacity), ops);
  }

  lemma {:induction false} CapacityFixed<K, T>(s: Lfu<K, T>, ops: seq<N.Op<K, T>>)
    ensures Run(s, ops).0.capacity == s.capacity
    decreases |ops|
  {
    if ops != [] {
      CapacityFixed(Step(s, ops[0]).0, ops[1..]);
    }
  }
}
