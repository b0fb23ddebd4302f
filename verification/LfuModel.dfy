/** The LFU cache on values: frequency buckets, most recently touched key first, and a cached minFreq. */
module LfuModel {
  import opened Common
  import N = NaiveCache

  datatype Item<T> = Item(value: T, expiration: nat, freq: int)

  datatype Lfu<K, T> = Lfu(
    capacity: nat,
    minFreq: int,
    items: map<K, Item<T>>,
    buckets: map<int, seq<K>>)

  ghost function Empty<K, T>(capacity: nat): Lfu<K, T> {
    Lfu(capacity, 0, map[], map[])
  }

  ghost function Bucket<K, T>(s: Lfu<K, T>, f: int): seq<K> {
    if f in s.buckets then s.buckets[f] else []
  }

  /** Taking a key out of its bucket; minFreq moves up by one when that empties the bucket it names. */
  ghost function Unlink<K, T>(s: Lfu<K, T>, k: K): Lfu<K, T>
    requires k in s.items
  {
    var f := s.items[k].freq;
    var rest := Without(Bucket(s, f), k);
    s.(buckets := s.buckets[f := rest],
       minFreq := if f == s.minFreq && rest == [] then s.minFreq + 1 else s.minFreq)
  }

  ghost function Remove<K, T>(s: Lfu<K, T>, k: K): Lfu<K, T>
    requires k in s.items
  {
    Unlink(s, k).(items := s.items - {k})
  }

  /** Recording a key at the front of the bucket of its frequency. */
  ghost function File<K, T>(s: Lfu<K, T>, k: K, item: Item<T>): Lfu<K, T> {
    s.(items := s.items[k := item], buckets := s.buckets[item.freq := [k] + Bucket(s, item.freq)])
  }

  ghost function Bump<K, T>(s: Lfu<K, T>, k: K): Lfu<K, T>
    requires k in s.items
  {
    File(Remove(s, k), k, s.items[k].(freq := s.items[k].freq + 1))
  }

  ghost function Evict<K, T>(s: Lfu<K, T>): Lfu<K, T> {
    var b := Bucket(s, s.minFreq);
    if b == [] then s
    else s.(items := s.items - {b[|b| - 1]}, buckets := s.buckets[s.minFreq := b[..|b| - 1]])
  }

  ghost function Insert<K, T>(s: Lfu<K, T>, k: K, v: T, expiration: nat): Lfu<K, T> {
    File(s, k, Item(v, expiration, 1)).(minFreq := 1)
  }

  ghost function Overwrite<K, T>(s: Lfu<K, T>, k: K, v: T, expiration: nat): Lfu<K, T>
    requires k in s.items
  {
    s.(items := s.items[k := s.items[k].(value := v, expiration := expiration)])
  }

  ghost function Step<K, T>(s: Lfu<K, T>, op: N.Op<K, T>): (Lfu<K, T>, Option<T>) {
    match op
    case Get(k, now) =>
      if k !in s.items then (s, None)
      else if N.Expired(s.items[k].expiration, now) then (Remove(s, k), None)
      else (Bump(s, k), Some(s.items[k].value))
    case Set(k, v, ttl, now) =>
      if k in s.items then (Bump(Overwrite(s, k, v, N.Expiry(ttl, now)), k), None)
      else (Insert(if |s.items| >= s.capacity then Evict(s) else s, k, v, N.Expiry(ttl, now)), None)
    case Delete(k) =>
      (if k in s.items then Remove(s, k) else s, None)
  }

  ghost function Run<K, T>(s: Lfu<K, T>, ops: seq<N.Op<K, T>>): (Lfu<K, T>, seq<Option<T>>)
    decreases |ops|
  {
    if ops == [] then (s, [])
    else
      var (t, answer) := Step(s, ops[0]);
      var (u, answers) := Run(t, ops[1..]);
      (u, [answer] + answers)
  }

  /** Bucket `f` lists exactly the keys of frequency `f`, each once. */
  ghost predicate FiledAt<K, T>(s: Lfu<K, T>, f: int) {
    && Distinct(Bucket(s, f))
    && (forall k :: k in Bucket(s, f) ==> k in s.items && s.items[k].freq == f)
    && (forall k :: k in s.items && s.items[k].freq == f ==> k in Bucket(s, f))
  }

  ghost predicate Filed<K, T>(s: Lfu<K, T>) {
    forall f :: FiledAt(s, f)
  }

  /** minFreq never exceeds a stored frequency, and names a bucket with a victim whenever the cache is full. */
  ghost predicate MinFreqSound<K, T>(s: Lfu<K, T>) {
    && (forall k :: k in s.items ==> s.minFreq <= s.items[k].freq && 1 <= s.items[k].freq)
    && (|s.items| == s.capacity ==> Bucket(s, s.minFreq) != [])
  }

  ghost predicate Valid<K, T>(s: Lfu<K, T>) {
    1 <= s.capacity && |s.items| <= s.capacity && Filed(s) && MinFreqSound(s)
  }

  lemma RemoveFiled<K, T>(s: Lfu<K, T>, k: K)
    requires Filed(s) && k in s.items
    ensures Filed(Remove(s, k)) && |Remove(s, k).items| == |s.items| - 1
  {
    var t, f := Remove(s, k), s.items[k].freq;
    assert FiledAt(s, f);
    WithoutMembers(Bucket(s, f), k);
    forall g
      ensures FiledAt(t, g)
    {
      assert FiledAt(s, g);
      if g == f {
        assert Bucket(t, g) == Without(Bucket(s, f), k);
      } else {
        assert Bucket(t, g) == Bucket(s, g);
      }
    }
    assert t.items.Keys == s.items.Keys - {k};
  }

  lemma FileFiled<K, T>(s: Lfu<K, T>, k: K, item: Item<T>)
    requires Filed(s) && k !in s.items
    ensures Filed(File(s, k, item)) && |File(s, k, item).items| == |s.items| + 1
  {
    var t, f := File(s, k, item), item.freq;
    assert t.items.Keys == s.items.Keys + {k};
    assert FiledAt(s, f);
    PrependMembers(Bucket(s, f), k);
    forall g
      ensures FiledAt(t, g)
    {
      assert FiledAt(s, g);
      if g == f {
        assert Bucket(t, g) == [k] + Bucket(s, f);
      } else {
        assert Bucket(t, g) == Bucket(s, g);
      }
    }
  }

  lemma InsertFiled<K, T>(s: Lfu<K, T>, k: K, v: T, expiration: nat)
    requires Filed(s) && k !in s.items
    ensures Filed(Insert(s, k, v, expiration)) && |Insert(s, k, v, expiration).items| == |s.items| + 1
  {
    var t := File(s, k, Item(v, expiration, 1));
    FileFiled(s, k, Item(v, expiration, 1));
    MinFreqIrrelevant(t, 1);
  }

  lemma MinFreqIrrelevant<K, T>(s: Lfu<K, T>, minFreq: int)
    requires Filed(s)
    ensures Filed(s.(minFreq := minFreq))
  {
    var t := s.(minFreq := minFreq);
    forall g
      ensures FiledAt(t, g)
    {
      assert FiledAt(s, g) && Bucket(t, g) == Bucket(s, g);
    }
  }

  lemma BumpFiled<K, T>(s: Lfu<K, T>, k: K)
    requires Filed(s) && k in s.items
    ensures Filed(Bump(s, k)) && |Bump(s, k).items| == |s.items|
  {
    RemoveFiled(s, k);
    FileFiled(Remove(s, k), k, s.items[k].(freq := s.items[k].freq + 1));
  }

  lemma BumpBuckets<K, T>(s: Lfu<K, T>, k: K, g: int)
    requires k in s.items
    ensures var f := s.items[k].freq;
            Bucket(Bump(s, k), g) ==
            if g == f then Without(Bucket(s, f), k)
            else if g == f + 1 then [k] + Bucket(s, g)
            else Bucket(s, g)
  {
  }

  lemma EvictNothing<K, T>(s: Lfu<K, T>)
    ensures Bucket(s, s.minFreq) == [] ==> Evict(s) == s
  {
  }

  /** The victim is the last key of the bucket that minFreq names. */
  lemma EvictIsRemove<K, T>(s: Lfu<K, T>)
    requires Filed(s) && Bucket(s, s.minFreq) != []
    ensures var b := Bucket(s, s.minFreq); var v := b[|b| - 1];
            v in s.items && s.items[v].freq == s.minFreq && Evict(s) == Remove(s, v).(minFreq := s.minFreq)
  {
    assert FiledAt(s, s.minFreq);
    var b := Bucket(s, s.minFreq);
    assert b[|b| - 1] in b;
    WithoutSplit(b, |b| - 1);
    assert b[..|b| - 1] + b[|b|..] == b[..|b| - 1];
  }

  lemma EvictFiled<K, T>(s: Lfu<K, T>)
    requires Filed(s) && Bucket(s, s.minFreq) != []
    ensures Filed(Evict(s)) && |Evict(s).items| == |s.items| - 1
  {
    EvictIsRemove(s);
    var b := Bucket(s, s.minFreq);
    RemoveFiled(s, b[|b| - 1]);
    MinFreqIrrelevant(Remove(s, b[|b| - 1]), s.minFreq);
  }

  lemma FullHasVictim<K, T>(s: Lfu<K, T>)
    requires Valid(s) && |s.items| >= s.capacity
    ensures Bucket(s, s.minFreq) != [] && Filed(Evict(s)) && |Evict(s).items| == s.capacity - 1
    ensures Evict(s).items.Keys <= s.items.Keys
  {
    EvictFiled(s);
    EvictIsRemove(s);
  }

  /** Every call keeps the invariant, so in particular Len never exceeds the capacity. */
  lemma StepValid<K, T>(s: Lfu<K, T>, op: N.Op<K, T>)
    requires Valid(s)
    ensures Valid(Step(s, op).0)
  {
    match op
    case Get(k, now) =>
      if k in s.items {
        RemoveValid(s, k);
        BumpValid(s, k);
      }
    case Set(k, v, ttl, now) =>
      if k in s.items {
        OverwriteValid(s, k, v, N.Expiry(ttl, now));
        BumpValid(Overwrite(s, k, v, N.Expiry(ttl, now)), k);
      } else if |s.items| >= s.capacity {
        EvictFiled(s);
        EvictIsRemove(s);
        InsertValid(Evict(s), k, v, N.Expiry(ttl, now));
      } else {
        InsertValid(s, k, v, N.Expiry(ttl, now));
      }
    case Delete(k) =>
      if k in s.items {
        RemoveValid(s, k);
      }
  }

  /** Removal may leave minFreq on an empty bucket, but it also leaves the cache below capacity. */
  lemma RemoveValid<K, T>(s: Lfu<K, T>, k: K)
    requires Valid(s) && k in s.items
    ensures Valid(Remove(s, k))
  {
    var t, f := Remove(s, k), s.items[k].freq;
    RemoveFiled(s, k);
    forall j | j in t.items
      ensures t.minFreq <= t.items[j].freq
    {
      assert FiledAt(t, f);
    }
  }

  lemma BumpValid<K, T>(s: Lfu<K, T>, k: K)
    requires Valid(s) && k in s.items
    ensures Valid(Bump(s, k))
  {
    var t, f := Bump(s, k), s.items[k].freq;
    BumpFiled(s, k);
    BumpBuckets(s, k, f);
    BumpBuckets(s, k, f + 1);
    BumpBuckets(s, k, s.minFreq);
    forall j | j in t.items
      ensures t.minFreq <= t.items[j].freq && 1 <= t.items[j].freq
    {
      assert FiledAt(t, f);
    }
  }

  lemma InsertValid<K, T>(s: Lfu<K, T>, k: K, v: T, expiration: nat)
    requires Filed(s) && k !in s.items && |s.items| < s.capacity
    requires forall j :: j in s.items ==> 1 <= s.items[j].freq
    ensures Valid(Insert(s, k, v, expiration))
  {
    InsertFiled(s, k, v, expiration);
  }

  lemma OverwriteValid<K, T>(s: Lfu<K, T>, k: K, v: T, expiration: nat)
    requires Valid(s) && k in s.items
    ensures Valid(Overwrite(s, k, v, expiration))
  {
    var t := Overwrite(s, k, v, expiration);
    assert t.items.Keys == s.items.Keys && |t.items| == |t.items.Keys|;
    forall g
      ensures FiledAt(t, g)
    {
      assert FiledAt(s, g) && Bucket(t, g) == Bucket(s, g);
    }
    assert Bucket(t, t.minFreq) == Bucket(s, s.minFreq);
  }
}