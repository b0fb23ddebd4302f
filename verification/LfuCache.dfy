/** The LFU cache as the program keeps it: linked nodes, a list object per frequency, and minFreq. */
module LfuCache {
  import opened Common
  import opened NodeLists
  import M = LfuModel
  import N = NaiveCache

  ghost predicate NodeOk<K, T>(n: Node<K, T>, i: M.Item<T>)
    reads n`value, n`expiration, n`freq
  {
    i == M.Item(n.value, n.expiration, n.freq)
  }

  /** The nodes come from `pool`, and their fields are what `items` says. */
  ghost predicate Fields<K, T>(live: map<K, Node<K, T>>, items: map<K, M.Item<T>>, pool: set<Node<K, T>>)
    reads pool`value, pool`expiration, pool`freq
  {
    live.Keys == items.Keys && forall k :: k in live ==> live[k] in pool && NodeOk(live[k], items[k])
  }

  lemma FieldsAt<K, T>(live: map<K, Node<K, T>>, items: map<K, M.Item<T>>, pool: set<Node<K, T>>, k: K)
    requires Fields(live, items, pool) && k in live
    ensures k in items && live[k] in pool && NodeOk(live[k], items[k])
  {
  }

  lemma FieldsMinus<K, T>(live: map<K, Node<K, T>>, items: map<K, M.Item<T>>, pool: set<Node<K, T>>, k: K)
    requires Fields(live, items, pool)
    ensures Fields(live - {k}, items - {k}, pool)
  {
  }

  lemma HeldList<K, T>(lists: map<int, NodeList<K, T>>, seqs: map<int, seq<Node<K, T>>>,
                       shelf: set<NodeList<K, T>>, pool: set<Node<K, T>>, f: int)
    requires Held(lists, seqs, shelf, pool) && f in seqs
    ensures f in lists && lists[f] in shelf && lists[f].len == |seqs[f]|
    ensures lists[f].tail == (if seqs[f] == [] then null else seqs[f][|seqs[f]| - 1])
    ensures Distinct(seqs[f]) && forall n :: n in seqs[f] ==> n in pool
  {
    assert HeldAt(lists[f], seqs[f], pool);
  }

  lemma HeldWiden<K, T>(lists: map<int, NodeList<K, T>>, seqs: map<int, seq<Node<K, T>>>,
                        shelf: set<NodeList<K, T>>, pool: set<Node<K, T>>, pool': set<Node<K, T>>)
    requires Held(lists, seqs, shelf, pool) && pool <= pool'
    ensures Held(lists, seqs, shelf, pool')
  {
    assert forall f :: f in lists && HeldAt(lists[f], seqs[f], pool) ==> HeldAt(lists[f], seqs[f], pool');
  }

  lemma HeldEmpty<K, T>(l: NodeList<K, T>, pool: set<Node<K, T>>)
    requires l.Valid() && l.nodes == []
    ensures HeldAt(l, [], pool)
  {
  }

  /** Each node sequence threads the nodes of `live` in the order of the bucket's keys. */
  ghost predicate Threaded<K, T>(live: map<K, Node<K, T>>, seqs: map<int, seq<Node<K, T>>>, buckets: map<int, seq<K>>) {
    Keyed(live) && seqs.Keys == buckets.Keys && forall f :: f in seqs ==> Threads(live, seqs[f], buckets[f])
  }

  lemma ThreadedDisjoint<K, T>(live: map<K, Node<K, T>>, seqs: map<int, seq<Node<K, T>>>, m: M.Lfu<K, T>)
    requires Threaded(live, seqs, m.buckets) && M.Filed(m)
    ensures Disjoint(seqs)
  {
    forall f | f in seqs
      ensures forall n :: n in seqs[f] ==> n.key in m.items && m.items[n.key].freq == f
    {
      assert M.FiledAt(m, f) && Threads(live, seqs[f], m.buckets[f]);
      ThreadsNamed(live, seqs[f], m.buckets[f]);
      assert forall k :: k in m.buckets[f] ==> k in M.Bucket(m, f);
    }
  }

  lemma ThreadedHas<K, T>(live: map<K, Node<K, T>>, seqs: map<int, seq<Node<K, T>>>, m: M.Lfu<K, T>, k: K)
    requires Threaded(live, seqs, m.buckets) && M.Filed(m) && k in m.items && k in live
    ensures m.items[k].freq in seqs && live[k] in seqs[m.items[k].freq]
  {
    var f := m.items[k].freq;
    assert M.FiledAt(m, f);
    var i :| 0 <= i < |m.buckets[f]| && m.buckets[f][i] == k;
    assert seqs[f][i] == live[k];
  }

  /** The last node of a list is the one whose key ends the bucket. */
  lemma ThreadedLast<K, T>(live: map<K, Node<K, T>>, seqs: map<int, seq<Node<K, T>>>, m: M.Lfu<K, T>, f: int)
    requires Threaded(live, seqs, m.buckets) && M.Filed(m) && m.items.Keys == live.Keys
    ensures f !in seqs || seqs[f] == [] ==> M.Bucket(m, f) == []
    ensures f in seqs && seqs[f] != [] ==>
              var b, n := M.Bucket(m, f), seqs[f][|seqs[f]| - 1];
              b != [] && n.key == b[|b| - 1] && n.key in live && live[n.key] == n && m.items[n.key].freq == f
  {
    assert M.FiledAt(m, f);
    if f in seqs && seqs[f] != [] {
      assert Threads(live, seqs[f], m.buckets[f]);
      assert m.buckets[f][|seqs[f]| - 1] in M.Bucket(m, f);
    }
  }

  lemma ThreadedRemove<K, T>(live: map<K, Node<K, T>>, seqs: map<int, seq<Node<K, T>>>, m: M.Lfu<K, T>, k: K)
    requires Threaded(live, seqs, m.buckets) && M.Filed(m) && k in m.items && k in live
    requires m.items[k].freq in seqs && Distinct(seqs[m.items[k].freq])
    ensures var f := m.items[k].freq;
            && Threaded(live - {k}, seqs[f := Without(seqs[f], live[k])], M.Remove(m, k).buckets)
            && M.Remove(m, k).minFreq ==
               (if f == m.minFreq && |Without(seqs[f], live[k])| == 0 then m.minFreq + 1 else m.minFreq)
            && M.Remove(m, k).capacity == m.capacity && M.Remove(m, k).items == m.items - {k}
  {
    var f := m.items[k].freq;
    var seqs', m' := seqs[f := Without(seqs[f], live[k])], M.Remove(m, k);
    ThreadsWithout(live, seqs[f], m.buckets[f], k);
    forall g | g in seqs'
      ensures Threads(live - {k}, seqs'[g], m'.buckets[g])
    {
      if g != f {
        assert M.FiledAt(m, g);
        assert k !in M.Bucket(m, g);
      }
    }
  }

  lemma ThreadedPush<K, T>(live: map<K, Node<K, T>>, seqs: map<int, seq<Node<K, T>>>, buckets: map<int, seq<K>>,
                           node: Node<K, T>, f: int)
    requires Threaded(live, seqs, buckets) && node.key !in live && f in seqs
    ensures Threaded(live[node.key := node], seqs[f := [node] + seqs[f]], buckets[f := [node.key] + buckets[f]])
    ensures forall g :: g in seqs ==> node !in seqs[g]
  {
    forall g | g in seqs
      ensures node !in seqs[g]
    {
      assert Threads(live, seqs[g], buckets[g]);
      ThreadsNamed(live, seqs[g], buckets[g]);
    }
  }

  lemma FieldsPlus<K, T>(live: map<K, Node<K, T>>, items: map<K, M.Item<T>>, pool: set<Node<K, T>>, node: Node<K, T>)
    requires Fields(live, items, pool) && node in pool
    ensures Fields(live[node.key := node], items[node.key := M.Item(node.value, node.expiration, node.freq)], pool)
  {
  }

  lemma FieldsNarrow<K, T>(live: map<K, Node<K, T>>, items: map<K, M.Item<T>>, pool: set<Node<K, T>>, node: Node<K, T>)
    requires Fields(live, items, pool) && forall j :: j in live ==> live[j] != node
    ensures Fields(live, items, pool - {node})
  {
  }

  lemma FieldsWiden<K, T>(live: map<K, Node<K, T>>, items: map<K, M.Item<T>>, pool: set<Node<K, T>>,
                          pool': set<Node<K, T>>)
    requires Fields(live, items, pool) && pool <= pool'
    ensures Fields(live, items, pool')
  {
  }

  /** An empty list for a new frequency changes nothing. */
  lemma ThreadedGrow<K, T>(live: map<K, Node<K, T>>, seqs: map<int, seq<Node<K, T>>>, m: M.Lfu<K, T>, f: int)
    requires Threaded(live, seqs, m.buckets) && Disjoint(seqs)
    ensures f in seqs <==> f in m.buckets
    ensures f !in seqs ==> Threaded(live, seqs[f := []], m.buckets[f := []]) && Disjoint(seqs[f := []])
  {
  }

  class Cache<K(==), T> {
    const capacity: nat
    var minFreq: int
    var items: map<K, Node<K, T>>
    var freqBuckets: map<int, NodeList<K, T>>
    ghost var model: M.Lfu<K, T>
    ghost var threads: map<int, seq<Node<K, T>>>
    ghost var shelf: set<NodeList<K, T>>
    ghost var pool: set<Node<K, T>>

    /** The linked structure holds the nodes of `live` as `m` says. */
    ghost predicate Rep(live: map<K, Node<K, T>>, m: M.Lfu<K, T>)
      reads this`minFreq, this`freqBuckets, this`threads, this`shelf, this`pool, shelf, pool
    {
      && m.capacity == capacity && m.minFreq == minFreq
      && Threaded(live, threads, m.buckets)
      && Fields(live, m.items, pool)
      && Held(freqBuckets, threads, shelf, pool)
    }

    ghost predicate Valid()
      reads this, shelf, pool
    {
      Rep(items, model) && M.Valid(model)
    }

    constructor (capacity: int)
      ensures Valid() && model == M.Empty(if capacity <= 0 then 128 else capacity)
      ensures shelf == {} && pool == {}
    {
      this.capacity := if capacity <= 0 then 128 else capacity;
      minFreq := 0;
      items := map[];
      freqBuckets := map[];
      model := M.Empty(if capacity <= 0 then 128 else capacity);
      threads := map[];
      shelf, pool := {}, {};
      new;
      assert forall f :: M.Bucket(model, f) == [] ==> M.FiledAt(model, f);
    }

    /** Takes the node out of its list; the map still names it. */
    method RemoveNode(node: Node<K, T>)
      requires Rep(items, model) && M.Filed(model) && node.key in items && items[node.key] == node
      modifies this`minFreq, this`threads, shelf, pool`prev, pool`next
      ensures Rep(items - {node.key}, M.Remove(model, node.key))
    {
      hide M.Filed, M.Remove, Threaded, Disjoint, Held, HeldAt, Fields, Without;
      ghost var k := node.key;
      FieldsAt(items, model.items, pool, k);
      ThreadedHas(items, threads, model, k);
      HeldList(freqBuckets, threads, shelf, pool, node.freq);
      if node.freq in freqBuckets {
        var bucket := freqBuckets[node.freq];
        ThreadedDisjoint(items, threads, model);
        ThreadedRemove(items, threads, model, k);
        Detach(freqBuckets, node.freq, node, threads, shelf, pool);
        threads := threads[node.freq := Without(threads[node.freq], node)];
        HeldList(freqBuckets, threads, shelf, pool, node.freq);
        if node.freq == minFreq && bucket.len == 0 {
          minFreq := minFreq + 1;
        }
        FieldsMinus(items, model.items, pool, k);
      }
    }

    method GetBucket(freq: int) returns (bucket: NodeList<K, T>)
      requires Held(freqBuckets, threads, shelf, pool)
      modifies this`freqBuckets, this`threads, this`shelf
      ensures freq in freqBuckets && freqBuckets[freq] == bucket
      ensures Held(freqBuckets, threads, shelf, pool)
      ensures threads == if freq in old(threads) then old(threads) else old(threads)[freq := []]
      ensures old(shelf) <= shelf && fresh(shelf - old(shelf))
    {
      hide HeldAt;
      if freq !in freqBuckets {
        bucket := new NodeList();
        HeldEmpty(bucket, pool);
        freqBuckets, threads, shelf := freqBuckets[freq := bucket], threads[freq := []], shelf + {bucket};
      } else {
        bucket := freqBuckets[freq];
      }
    }

    /** Puts a node that `live` does not name at the front of the list of its frequency. */
    method PushNode(node: Node<K, T>, ghost live: map<K, Node<K, T>>, ghost m: M.Lfu<K, T>)
      requires Rep(live, m) && M.Filed(m) && node.key !in live && node in pool
      modifies this`freqBuckets, this`threads, this`shelf, shelf, pool`prev, pool`next
      ensures Rep(live[node.key := node], M.File(m, node.key, M.Item(node.value, node.expiration, node.freq)))
      ensures old(shelf) <= shelf && fresh(shelf - old(shelf))
    {
      hide M.Filed, Threaded, Disjoint, Held, HeldAt, Fields;
      ghost var k, f := node.key, node.freq;
      ThreadedDisjoint(live, threads, m);
      ThreadedGrow(live, threads, m, f);
      var bucket := GetBucket(node.freq);
      HeldList(freqBuckets, threads, shelf, pool, node.freq);
      ghost var buckets := if f in m.buckets then m.buckets else m.buckets[f := []];
      ThreadedPush(live, threads, buckets, node, f);
      Attach(freqBuckets, node.freq, node, threads, shelf, pool);
      threads := threads[f := [node] + threads[f]];
      FieldsPlus(live, m.items, pool, node);
      assert M.File(m, k, M.Item(node.value, node.expiration, f)).buckets == buckets[f := [k] + buckets[f]];
    }

    method IncrementFreq(node: Node<K, T>)
      requires Rep(items, model) && M.Filed(model) && node.key in items && items[node.key] == node
      modifies this`minFreq, this`freqBuckets, this`threads, this`shelf, shelf, pool`prev, pool`next, node`freq
      ensures Rep(items, M.Bump(model, node.key))
      ensures old(shelf) <= shelf && fresh(shelf - old(shelf))
    {
      hide M.Filed, M.Remove, M.File, Threaded, Held, Fields;
      RepAt(items, model, node.key);
      ghost var k, m, live := node.key, M.Remove(model, node.key), items - {node.key};
      assert items == live[k := node];
      RemoveNode(node);
      FieldsNarrow(live, m.items, pool, node);
      node.freq := node.freq + 1;
      FieldsWiden(live, m.items, pool - {node}, pool);
      M.RemoveFiled(model, k);
      PushNode(node, live, m);
    }

    lemma RepKeys(live: map<K, Node<K, T>>, m: M.Lfu<K, T>)
      requires Rep(live, m)
      ensures m.items.Keys == live.Keys && m.buckets.Keys == threads.Keys == freqBuckets.Keys
      ensures m.capacity == capacity
    {
    }

    lemma RepAt(live: map<K, Node<K, T>>, m: M.Lfu<K, T>, k: K)
      requires Rep(live, m) && k in live
      ensures Keyed(live) && k in m.items && live[k] in pool
      ensures m.items[k] == M.Item(live[k].value, live[k].expiration, live[k].freq)
    {
      FieldsAt(live, m.items, pool, k);
    }

    /** Drops the tail of the list that minFreq names, if there is one. */
    method EvictMinFreq()
      requires Rep(items, model) && M.Filed(model)
      modifies this`items, this`threads, shelf, pool`prev, pool`next
      ensures Rep(items, M.Evict(model)) && items.Keys <= old(items.Keys)
    {
      hide M.Filed, M.Remove, M.Evict, Threaded, Disjoint, Held, HeldAt, Fields, Without;
      RepKeys(items, model);
      ThreadedLast(items, threads, model, model.minFreq);
      M.EvictNothing(model);
      if minFreq !in freqBuckets {
        return;
      }
      var bucket := freqBuckets[minFreq];
      HeldList(freqBuckets, threads, shelf, pool, minFreq);
      if bucket.len == 0 {
        return;
      }
      var victim: Node<K, T> := bucket.tail;
      ThreadedDisjoint(items, threads, model);
      ThreadedRemove(items, threads, model, victim.key);
      M.EvictIsRemove(model);
      FieldsMinus(items, model.items, pool, victim.key);
      Detach(freqBuckets, minFreq, victim, threads, shelf, pool);
      threads := threads[minFreq := Without(threads[minFreq], victim)];
      items := items - {victim.key};
    }

    method Get(key: K, now: nat) returns (value: Option<T>)
      requires Valid()
      modifies this, shelf, pool
      ensures Valid() && (model, value) == M.Step(old(model), N.Get(key, now))
      ensures fresh(shelf - old(shelf)) && pool == old(pool)
    {
      hide M.Filed, M.MinFreqSound, M.Remove, M.Bump, Rep;
      M.StepValid(model, N.Get(key, now));
      RepKeys(items, model);
      if key !in items {
        return None;
      }
      var node := items[key];
      RepAt(items, model, key);
      if node.expiration > 0 && node.expiration <= now {
        RemoveNode(node);
        items, model := items - {key}, M.Remove(model, key);
        return None;
      }
      IncrementFreq(node);
      model := M.Bump(model, key);
      return Some(node.value);
    }

    method Overwrite(node: Node<K, T>, value: T, expiration: nat)
      requires Rep(items, model) && node.key in items && items[node.key] == node
      modifies this`model, node`value, node`expiration
      ensures node.key in old(model).items && Rep(items, model)
      ensures model == M.Overwrite(old(model), node.key, value, expiration)
    {
      hide Threaded, Held, Fields;
      RepAt(items, model, node.key);
      ghost var k, live := node.key, items - {node.key};
      ghost var rest := model.items - {k};
      assert items == live[k := node];
      FieldsMinus(items, model.items, pool, k);
      FieldsNarrow(live, rest, pool, node);
      node.value := value;
      node.expiration := expiration;
      FieldsWiden(live, rest, pool - {node}, pool);
      FieldsPlus(live, rest, pool, node);
      model := M.Overwrite(model, k, value, expiration);
      assert model.items == rest[k := M.Item(value, expiration, node.freq)];
    }

    /** What Set does to a key that is already there. */
    method Update(node: Node<K, T>, value: T, expiration: nat)
      requires Valid() && node.key in items && items[node.key] == node
      modifies this, shelf, pool
      ensures Rep(items, model) && pool == old(pool) && fresh(shelf - old(shelf))
      ensures node.key in old(model).items
      ensures model == M.Bump(M.Overwrite(old(model), node.key, value, expiration), node.key)
    {
      hide M.Filed, M.MinFreqSound, M.Bump, Rep;
      RepAt(items, model, node.key);
      M.OverwriteValid(model, node.key, value, expiration);
      Overwrite(node, value, expiration);
      IncrementFreq(node);
      model := M.Bump(model, node.key);
    }

    method Set(key: K, value: T, ttl: int, now: nat)
      requires Valid()
      modifies this, shelf, pool
      ensures Valid() && (model, None) == M.Step(old(model), N.Set(key, value, ttl, now))
      ensures fresh(shelf - old(shelf)) && fresh(pool - old(pool))
    {
      hide M.Filed, M.MinFreqSound, M.Bump, M.Evict, Rep;
      var expiration := N.Expiry(ttl, now);
      M.StepValid(model, N.Set(key, value, ttl, now));
      RepKeys(items, model);
      if key in items {
        RepAt(items, model, key);
        Update(items[key], value, expiration);
        return;
      }
      assert |items| == |items.Keys| == |model.items.Keys| == |model.items|;
      if |items| >= capacity {
        M.FullHasVictim(model);
        EvictMinFreq();
        model := M.Evict(model);
      }
      Insert(key, value, expiration);
    }

    method Insert(key: K, value: T, expiration: nat)
      requires Rep(items, model) && M.Filed(model) && key !in items
      modifies this, shelf, pool`prev, pool`next
      ensures Rep(items, model) && model == M.Insert(old(model), key, value, expiration)
      ensures fresh(shelf - old(shelf))
      ensures key in items && fresh(items[key]) && pool == old(pool) + {items[key]}
    {
      hide M.Filed, M.File, Threaded, Held, HeldAt, Fields, Keyed, Disjoint;
      var newNode := new Node(key, value, 1, expiration);
      FieldsWiden(items, model.items, pool, pool + {newNode});
      HeldWiden(freqBuckets, threads, shelf, pool, pool + {newNode});
      pool := pool + {newNode};
      ghost var live := items;
      items := items[key := newNode];
      PushNode(newNode, live, model);
      minFreq := 1;
      model := M.Insert(model, key, value, expiration);
    }

    method Delete(key: K)
      requires Valid()
      modifies this, shelf, pool
      ensures Valid() && (model, None) == M.Step(old(model), N.Delete(key))
      ensures shelf == old(shelf) && pool == old(pool)
    {
      hide M.Filed, M.MinFreqSound, M.Remove, Rep;
      M.StepValid(model, N.Delete(key));
      RepKeys(items, model);
      if key in items {
        RepAt(items, model, key);
        RemoveNode(items[key]);
        items, model := items - {key}, M.Remove(model, key);
      }
    }

    method Len() returns (n: nat)
      requires Valid()
      ensures n == |model.items| && n <= capacity
    {
      n := |items|;
      assert |items| == |items.Keys| == |model.items.Keys| == |model.items|;
    }
  }
}